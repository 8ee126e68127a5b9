/** Why a login attempt is rejected (server/login_limiter.go): never without a cause
    that can be read off the accepted attempts before it. Units are written out. */
module LoginLimiterCauses {
  import opened LoginLimiters
  import opened Sets

  const TEN_MINUTES: int := 600_000_000_000

  function Pause(cfg: Config): int {
    cfg.cooldownSeconds * 1_000_000_000
  }

  /** How many of the times are later than `since`. */
  function Recent(times: seq<Instant>, since: Instant): nat {
    if times == [] then 0
    else Recent(times[..|times| - 1], since) + if times[|times| - 1] > since then 1 else 0
  }

  lemma RecentSnoc(times: seq<Instant>, at: Instant, since: Instant)
    ensures Recent(times + [at], since) == Recent(times, since) + if at > since then 1 else 0
  {
    assert (times + [at])[..|times|] == times;
  }

  lemma {:induction false} RecentEarlier(times: seq<Instant>, since: Instant, earlier: Instant)
    requires earlier <= since
    ensures Recent(times, since) <= Recent(times, earlier) <= |times|
  {
    if times != [] { RecentEarlier(times[..|times| - 1], since, earlier); }
  }

  /** A new source comes to a map that holds as many others as there may be attempts. */
  predicate Overflows(l: Limiter, ip: string, cfg: Config) {
    l.globalCooldownUntil == ZERO && ip !in l.byIP && |l.byIP| >= cfg.maxTriesOverall
  }

  predicate OverflowAt(trace: seq<Event>, i: nat, cfg: Config)
    requires i < |trace|
  {
    trace[i].Attempt? && Overflows(After(trace[..i], cfg), trace[i].ip, cfg)
  }

  // ------------------------------------------------------------- what the state remembers

  /** The counter and the deadline for all sources come from accepted attempts, or the
      deadline from an overflow. */
  predicate GlobalCause(l: Limiter, times: seq<Instant>, overflows: seq<Instant>, cfg: Config) {
    && WindowCause(l.globalWindowEndsAt, l.globalAttempts, times)
    && PauseCause(l.globalCooldownUntil, times, overflows, cfg)
    && |l.byIP| <= |times|
  }

  predicate WindowCause(endsAt: Instant, attempts: int, times: seq<Instant>) {
    endsAt != ZERO ==> attempts <= Recent(times, endsAt - TEN_MINUTES - 1)
  }

  predicate PauseCause(until: Instant, times: seq<Instant>, overflows: seq<Instant>, cfg: Config) {
    until != ZERO ==>
      Recent(times, until - Pause(cfg) - TEN_MINUTES) >= cfg.maxTriesOverall || until - Pause(cfg) in overflows
  }

  /** So do those of one source. */
  predicate SourceCause(l: Limiter, ip: string, times: seq<Instant>, cfg: Config) {
    ip in l.byIP ==>
      && l.byIP[ip].attempts <= Recent(times, l.byIP[ip].windowEndsAt - TEN_MINUTES - 1)
      && (l.byIP[ip].cooldownUntil != ZERO ==>
            Recent(times, l.byIP[ip].cooldownUntil - Pause(cfg) - TEN_MINUTES) >= cfg.maxTries)
  }

  lemma GlobalCleanupCause(l: Limiter, times: seq<Instant>, overflows: seq<Instant>, at: Instant, cfg: Config)
    requires GlobalCause(l, times, overflows, cfg)
    ensures GlobalCause(Cleanup(l, at), times, overflows, cfg)
  {
    CleanupShrinks(l, at);
  }

  lemma CleanupShrinks(l: Limiter, at: Instant)
    ensures |Cleanup(l, at).byIP| <= |l.byIP|
  {
    var swept := l.byIP - Expired(l.byIP, at);
    SubsetSize(swept.Keys, l.byIP.Keys);
    assert |swept| == |swept.Keys| && |l.byIP| == |l.byIP.Keys|;
  }

  lemma GlobalRejectCause(l: Limiter, times: seq<Instant>, overflows: seq<Instant>, ip: string, at: Instant, cfg: Config)
    requires ValidConfig(cfg) && GlobalCause(l, times, overflows, cfg) && 0 < at && !Allow(l, ip, at, cfg).1.ok
    ensures GlobalCause(Allow(l, ip, at, cfg).0, times, if Overflows(l, ip, cfg) then overflows + [at] else overflows, cfg)
  {
  }

  lemma GlobalAcceptCause(l: Limiter, times: seq<Instant>, overflows: seq<Instant>, ip: string, now: Instant, at: Instant, cfg: Config)
    requires ValidConfig(cfg) && Valid(l, now, cfg) && GlobalCause(l, times, overflows, cfg)
    requires 0 < at && now <= at && Allow(l, ip, at, cfg).1.ok
    ensures GlobalCause(Allow(l, ip, at, cfg).0, times + [at], overflows, cfg)
  {
    var r := RollGlobal(l, at);
    RollKeepsCause(l, times, overflows, now, at, cfg);
    ChargeCause(r, ip, RollSource(r, ip, at), times, overflows, at, cfg);
  }

  lemma RollKeepsCause(l: Limiter, times: seq<Instant>, overflows: seq<Instant>, now: Instant, at: Instant, cfg: Config)
    requires Valid(l, now, cfg) && GlobalCause(l, times, overflows, cfg)
    requires 0 < at && now <= at && l.globalCooldownUntil <= at
    ensures var r := RollGlobal(l, at);
            && GlobalCause(r, times, overflows, cfg) && r.globalCooldownUntil == ZERO
            && at < r.globalWindowEndsAt <= at + TEN_MINUTES
  {
  }

  lemma ChargeCause(l: Limiter, ip: string, source: Source, times: seq<Instant>, overflows: seq<Instant>, at: Instant, cfg: Config)
    requires GlobalCause(l, times, overflows, cfg) && l.globalCooldownUntil == ZERO
    requires 0 < at < l.globalWindowEndsAt <= at + TEN_MINUTES
    ensures GlobalCause(Charge(l, ip, source, at, cfg), times + [at], overflows, cfg)
  {
    var start := l.globalWindowEndsAt - TEN_MINUTES - 1;
    RecentSnoc(times, at, start);
    RecentEarlier(times + [at], start, at - TEN_MINUTES);
    ChargedSize(l, ip, source, at, cfg);
  }

  lemma ChargedSize(l: Limiter, ip: string, source: Source, at: Instant, cfg: Config)
    ensures |Charge(l, ip, source, at, cfg).byIP| <= |l.byIP| + 1
  {
    var attempts := source.attempts + 1;
    OneMoreSource(l.byIP, ip, source.(attempts := attempts,
                                      cooldownUntil := if attempts >= cfg.maxTries then at + Cooldown(cfg) else source.cooldownUntil));
  }

  lemma OneMoreSource(byIP: map<string, Source>, ip: string, source: Source)
    ensures |byIP[ip := source]| <= |byIP| + 1
  {
    assert byIP[ip := source].Keys == byIP.Keys + {ip};
    assert |byIP[ip := source]| == |byIP.Keys + {ip}| && |byIP| == |byIP.Keys|;
  }

  lemma SourceKeepsCause(l: Limiter, ip: string, times: seq<Instant>, event: Event, cfg: Config)
    requires ValidConfig(cfg) && SourceCause(l, ip, times, cfg) && !Accepts(l, One(ip), event, cfg)
    ensures SourceCause(Step(l, event, cfg), ip, times, cfg)
  {
  }

  lemma SourceAcceptCause(l: Limiter, ip: string, times: seq<Instant>, now: Instant, at: Instant, cfg: Config)
    requires ValidConfig(cfg) && Valid(l, now, cfg) && SourceCause(l, ip, times, cfg)
    requires 0 < at && now <= at && Allow(l, ip, at, cfg).1.ok
    ensures SourceCause(Allow(l, ip, at, cfg).0, ip, times + [at], cfg)
  {
    var source := RollSource(RollGlobal(l, at), ip, at);
    var start := source.windowEndsAt - TEN_MINUTES - 1;
    RecentSnoc(times, at, start);
    RecentEarlier(times + [at], start, at - TEN_MINUTES);
  }

  // ------------------------------------------------------------- over whole traces

  /** When new sources met a full map. */
  function Overflown(trace: seq<Event>, cfg: Config): seq<Instant> {
    if trace == [] then []
    else
      var front, last := trace[..|trace| - 1], trace[|trace| - 1];
      if last.Attempt? && Overflows(After(front, cfg), last.ip, cfg) then Overflown(front, cfg) + [last.at]
      else Overflown(front, cfg)
  }

  lemma {:induction false} GlobalCauseInv(trace: seq<Event>, cfg: Config)
    requires ValidConfig(cfg) && Ordered(trace)
    ensures GlobalCause(After(trace, cfg), Accepted(trace, Everyone, cfg), Overflown(trace, cfg), cfg)
  {
    if trace != [] {
      var n := |trace| - 1;
      var front, l, times := trace[..n], After(trace[..n], cfg), Accepted(trace[..n], Everyone, cfg);
      GlobalCauseInv(front, cfg);
      TraceValid(front, cfg);
      GlobalCauseStep(l, times, Overflown(front, cfg), Now(front), trace[n], cfg);
    }
  }

  lemma GlobalCauseStep(l: Limiter, times: seq<Instant>, overflows: seq<Instant>, now: Instant, event: Event, cfg: Config)
    requires ValidConfig(cfg) && Valid(l, now, cfg) && GlobalCause(l, times, overflows, cfg) && 0 < event.at && now <= event.at
    ensures GlobalCause(Step(l, event, cfg), if Accepts(l, Everyone, event, cfg) then times + [event.at] else times,
                        if event.Attempt? && Overflows(l, event.ip, cfg) then overflows + [event.at] else overflows, cfg)
  {
    match event
    case Janitor(at) => GlobalCleanupCause(l, times, overflows, at, cfg);
    case Attempt(ip, at) =>
      if Allow(l, ip, at, cfg).1.ok {
        GlobalAcceptCause(l, times, overflows, ip, now, at, cfg);
      } else {
        GlobalRejectCause(l, times, overflows, ip, at, cfg);
      }
  }

  lemma {:induction false} SourceCauseInv(trace: seq<Event>, ip: string, cfg: Config)
    requires ValidConfig(cfg) && Ordered(trace)
    ensures SourceCause(After(trace, cfg), ip, Accepted(trace, One(ip), cfg), cfg)
  {
    if trace != [] {
      var n := |trace| - 1;
      var front, l := trace[..n], After(trace[..n], cfg);
      SourceCauseInv(front, ip, cfg);
      TraceValid(front, cfg);
      if Accepts(l, One(ip), trace[n], cfg) {
        SourceAcceptCause(l, ip, Accepted(front, One(ip), cfg), Now(front), trace[n].at, cfg);
      } else {
        SourceKeepsCause(l, ip, Accepted(front, One(ip), cfg), trace[n], cfg);
      }
    }
  }

  /** The same for one state. */
  lemma RejectedFor(l: Limiter, ip: string, at: Instant, all: seq<Instant>, own: seq<Instant>, overflows: seq<Instant>, cfg: Config)
    requires ValidConfig(cfg) && 0 < at && !Allow(l, ip, at, cfg).1.ok
    requires GlobalCause(l, all, overflows, cfg) && SourceCause(l, ip, own, cfg)
    ensures || Recent(own, at - Pause(cfg) - TEN_MINUTES) >= cfg.maxTries
            || Recent(all, at - Pause(cfg) - TEN_MINUTES) >= cfg.maxTriesOverall
            || Overflows(l, ip, cfg) || exists started <- overflows :: at - Pause(cfg) < started
  {
    var since := at - Pause(cfg) - TEN_MINUTES;
    if at < l.globalCooldownUntil {
      RecentEarlier(all, l.globalCooldownUntil - Pause(cfg) - TEN_MINUTES, since);
    } else if ip in RollGlobal(l, at).byIP {
      RecentEarlier(own, l.byIP[ip].cooldownUntil - Pause(cfg) - TEN_MINUTES, since);
    }
  }

  lemma {:induction false} OverflownIn(trace: seq<Event>, j: nat, at: Instant, cfg: Config) returns (i: nat)
    requires j <= |trace| && at in Overflown(trace[..j], cfg)
    ensures i < j && OverflowAt(trace, i, cfg) && trace[i].at == at
  {
    var n := j - 1;
    assert trace[..j][..n] == trace[..n] && trace[..j][n] == trace[n];
    if at in Overflown(trace[..n], cfg) {
      i := OverflownIn(trace, n, at, cfg);
    } else {
      i := n;
    }
  }

  /** One of the attempts up to j met a full map after `since`. */
  predicate OverflowSince(trace: seq<Event>, j: nat, since: Instant, cfg: Config)
    requires j < |trace|
  {
    exists i | 0 <= i <= j :: OverflowAt(trace, i, cfg) && since < trace[i].at
  }

  lemma CausesBefore(trace: seq<Event>, j: nat, cfg: Config)
    requires ValidConfig(cfg) && Ordered(trace) && j < |trace| && trace[j].Attempt?
    ensures GlobalCause(After(trace[..j], cfg), Accepted(trace[..j], Everyone, cfg), Overflown(trace[..j], cfg), cfg)
    ensures SourceCause(After(trace[..j], cfg), trace[j].ip, Accepted(trace[..j], One(trace[j].ip), cfg), cfg)
  {
    PrefixIsOrdered(trace, j, j);
    GlobalCauseInv(trace[..j], cfg);
    SourceCauseInv(trace[..j], trace[j].ip, cfg);
  }

  lemma OverflowIsSince(trace: seq<Event>, j: nat, since: Instant, at: Instant, cfg: Config)
    requires j < |trace| && at in Overflown(trace[..j], cfg) && since < at
    ensures OverflowSince(trace, j, since, cfg)
  {
    var i := OverflownIn(trace, j, at, cfg);
  }

  /** A rejected attempt has one of three causes: within the last cooldown and ten
      minutes its source had all its attempts, or all sources together had all of
      theirs; or within the last cooldown (now included) a new source met a full map. */
  lemma RejectionHasCause(trace: seq<Event>, j: nat, cfg: Config)
    requires ValidConfig(cfg) && Ordered(trace) && j < |trace| && trace[j].Attempt? && !AnswerTo(trace, j, cfg).ok
    ensures || Recent(Accepted(trace[..j], One(trace[j].ip), cfg), trace[j].at - Pause(cfg) - TEN_MINUTES) >= cfg.maxTries
            || Recent(Accepted(trace[..j], Everyone, cfg), trace[j].at - Pause(cfg) - TEN_MINUTES) >= cfg.maxTriesOverall
            || OverflowSince(trace, j, trace[j].at - Pause(cfg), cfg)
  {
    assert Pause(cfg) > 0;
    CausesBefore(trace, j, cfg);
    var all, own := Accepted(trace[..j], Everyone, cfg), Accepted(trace[..j], One(trace[j].ip), cfg);
    var l, overflows, at := After(trace[..j], cfg), Overflown(trace[..j], cfg), trace[j].at;
    RejectedFor(l, trace[j].ip, at, all, own, overflows, cfg);
    if Overflows(l, trace[j].ip, cfg) {
      assert OverflowAt(trace, j, cfg);
    } else if started :| started in overflows && at - Pause(cfg) < started {
      OverflowIsSince(trace, j, at - Pause(cfg), started, cfg);
    }
  }

  /** The map can only be full after as many accepted attempts as there may be. */
  lemma OverflowNeedsAttempts(trace: seq<Event>, i: nat, cfg: Config)
    requires ValidConfig(cfg) && Ordered(trace) && i < |trace| && OverflowAt(trace, i, cfg)
    ensures |Accepted(trace[..i], Everyone, cfg)| >= cfg.maxTriesOverall
  {
    PrefixIsOrdered(trace, i, i);
    GlobalCauseInv(trace[..i], cfg);
  }

  lemma {:induction false} AcceptedGrows(trace: seq<Event>, i: nat, cfg: Config)
    requires i <= |trace|
    ensures |Accepted(trace[..i], Everyone, cfg)| <= |Accepted(trace, Everyone, cfg)|
  {
    if i < |trace| {
      assert trace[..|trace| - 1][..i] == trace[..i];
      AcceptedGrows(trace[..|trace| - 1], i, cfg);
    } else {
      assert trace[..i] == trace;
    }
  }

  lemma NoOverflowBefore(trace: seq<Event>, j: nat, cfg: Config)
    requires ValidConfig(cfg) && Ordered(trace) && j < |trace|
    requires |Accepted(trace[..j], Everyone, cfg)| < cfg.maxTriesOverall
    ensures forall i | 0 <= i <= j :: !OverflowAt(trace, i, cfg)
  {
    forall i | 0 <= i <= j ensures !OverflowAt(trace, i, cfg) {
      if OverflowAt(trace, i, cfg) {
        OverflowNeedsAttempts(trace, i, cfg);
        assert trace[..j][..i] == trace[..i];
        AcceptedGrows(trace[..j], i, cfg);
      }
    }
  }

  /** So whoever stays below both limits since the last reset is always let in. */
  lemma BelowLimitsIsAccepted(trace: seq<Event>, j: nat, cfg: Config)
    requires ValidConfig(cfg) && Ordered(trace) && j < |trace| && trace[j].Attempt?
    requires |Accepted(trace[..j], Everyone, cfg)| < cfg.maxTriesOverall
    requires |Accepted(trace[..j], One(trace[j].ip), cfg)| < cfg.maxTries
    ensures AnswerTo(trace, j, cfg).ok
  {
    var since := trace[j].at - Pause(cfg) - TEN_MINUTES;
    var all, own := Accepted(trace[..j], Everyone, cfg), Accepted(trace[..j], One(trace[j].ip), cfg);
    RecentEarlier(all, since, since);
    RecentEarlier(own, since, since);
    NoOverflowBefore(trace, j, cfg);
    if !AnswerTo(trace, j, cfg).ok { RejectionHasCause(trace, j, cfg); }
  }

  /** A clean-up leaves exactly the entries that still count for something: those with
      a window or a cooldown that is not over. */
  lemma CleanUpExactly(l: Limiter, now: Instant, ip: string)
    ensures var l' := Cleanup(l, now);
            && (ip in l'.byIP <==> ip in l.byIP && (l.globalCooldownUntil == ZERO || now < l.globalCooldownUntil) &&
                                   (now < l.byIP[ip].windowEndsAt || now < l.byIP[ip].cooldownUntil))
            && (ip in l'.byIP ==> l'.byIP[ip] == l.byIP[ip])
            && (l.globalCooldownUntil != ZERO && now >= l.globalCooldownUntil ==> l' == Limiter(map[], 0, ZERO, ZERO))
            && (l.globalCooldownUntil == ZERO || now < l.globalCooldownUntil ==>
                  l'.globalCooldownUntil == l.globalCooldownUntil)
  {
  }

  /** The units of the program: a window is ten minutes and a cooldown as many seconds
      as are configured. */
  lemma Units(cfg: Config)
    ensures RATE_WINDOW == TEN_MINUTES && Cooldown(cfg) == Pause(cfg)
  {
  }
}
