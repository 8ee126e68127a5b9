/** The login rate limiter of server/login_limiter.go: per-source and global
    windows and cooldowns over one map that a global cooldown wipes.

    Instants are whole nanoseconds after the zero instant, which stands for the
    zero time of the source; a request never arrives at the zero instant. */
module LoginLimiters {
  import opened Sets

  const SECOND := 1_000_000_000
  const RATE_WINDOW := 600 * SECOND

  type Instant = int

  const ZERO: Instant := 0

  /** The three settings validateAppConfig bounds from below; the cooldown is in
      seconds. */
  datatype Config = Config(maxTries: nat, maxTriesOverall: nat, cooldownSeconds: nat)

  predicate ValidConfig(cfg: Config) {
    1 <= cfg.maxTries <= cfg.maxTriesOverall && 1 <= cfg.cooldownSeconds
  }

  function Cooldown(cfg: Config): int { cfg.cooldownSeconds * SECOND }

  datatype Source = Source(attempts: int, windowEndsAt: Instant, cooldownUntil: Instant)

  datatype Limiter = Limiter(
    byIP: map<string, Source>,
    globalAttempts: int,
    globalWindowEndsAt: Instant,
    globalCooldownUntil: Instant)

  const FRESH := Limiter(map[], 0, ZERO, ZERO)

  /** The answer to one attempt, with the wait of a rejection. */
  datatype Answer = Answer(ok: bool, wait: int)

  // ---------------------------------------------------------------- the operations on values

  function StartGlobalCooldown(l: Limiter, now: Instant, cfg: Config): Limiter {
    Limiter(map[], 0, ZERO, now + Cooldown(cfg))
  }

  /** The state an attempt is charged to, after global expiry and roll-over. */
  function RollGlobal(l: Limiter, now: Instant): Limiter {
    var l := if l.globalCooldownUntil != ZERO then FRESH else l;
    if l.globalWindowEndsAt == ZERO || now >= l.globalWindowEndsAt
    then l.(globalAttempts := 0, globalWindowEndsAt := now + RATE_WINDOW)
    else l
  }

  /** The source's entry an attempt is charged to: its own, or a new one. */
  function RollSource(l: Limiter, ip: string, now: Instant): Source {
    if ip !in l.byIP || l.byIP[ip].cooldownUntil != ZERO || now >= l.byIP[ip].windowEndsAt
    then Source(0, now + RATE_WINDOW, ZERO)
    else l.byIP[ip]
  }

  function Charge(l: Limiter, ip: string, source: Source, now: Instant, cfg: Config): Limiter {
    var attempts := source.attempts + 1;
    var source := source.(attempts := attempts,
                          cooldownUntil := if attempts >= cfg.maxTries then now + Cooldown(cfg) else source.cooldownUntil);
    var l := l.(byIP := l.byIP[ip := source], globalAttempts := l.globalAttempts + 1);
    if l.globalAttempts >= cfg.maxTriesOverall then StartGlobalCooldown(l, now, cfg) else l
  }

  function Allow(l: Limiter, ip: string, now: Instant, cfg: Config): (Limiter, Answer) {
    if now < l.globalCooldownUntil then (l, Answer(false, l.globalCooldownUntil - now))
    else
      var l := RollGlobal(l, now);
      if ip in l.byIP && now < l.byIP[ip].cooldownUntil then (l, Answer(false, l.byIP[ip].cooldownUntil - now))
      else if ip !in l.byIP && |l.byIP| >= cfg.maxTriesOverall then
        (StartGlobalCooldown(l, now, cfg), Answer(false, Cooldown(cfg)))
      else
        (Charge(l, ip, RollSource(l, ip, now), now, cfg), Answer(true, 0))
  }

  /** The entries whose window and cooldown are both over. */
  function Expired(byIP: map<string, Source>, now: Instant): set<string> {
    set ip | ip in byIP && now >= byIP[ip].windowEndsAt && now >= byIP[ip].cooldownUntil
  }

  function Cleanup(l: Limiter, now: Instant): Limiter {
    if l.globalCooldownUntil != ZERO && now >= l.globalCooldownUntil then FRESH
    else
      var l := l.(byIP := l.byIP - Expired(l.byIP, now));
      if l.globalWindowEndsAt != ZERO && now >= l.globalWindowEndsAt
      then l.(globalAttempts := 0, globalWindowEndsAt := ZERO)
      else l
  }

  // ---------------------------------------------------------------- the object

  class LoginLimiter {
    var byIP: map<string, Source>
    var globalAttempts: int
    var globalWindowEndsAt: Instant
    var globalCooldownUntil: Instant

    ghost function View(): Limiter
      reads this
    {
      Limiter(byIP, globalAttempts, globalWindowEndsAt, globalCooldownUntil)
    }

    constructor ()
      ensures View() == FRESH
    {
      byIP, globalAttempts, globalWindowEndsAt, globalCooldownUntil := map[], 0, ZERO, ZERO;
    }

    method Reset()
      modifies this
      ensures View() == FRESH
    {
      byIP, globalAttempts, globalWindowEndsAt, globalCooldownUntil := map[], 0, ZERO, ZERO;
    }

    method BeginGlobalCooldown(now: Instant, cfg: Config)
      modifies this
      ensures View() == StartGlobalCooldown(old(View()), now, cfg)
    {
      globalCooldownUntil := now + cfg.cooldownSeconds * SECOND;
      globalAttempts := 0;
      globalWindowEndsAt := ZERO;
      byIP := map[];
    }

    method TryAttempt(ip: string, now: Instant, cfg: Config) returns (ok: bool, wait: int)
      modifies this
      ensures (View(), Answer(ok, wait)) == Allow(old(View()), ip, now, cfg)
    {
      if now < globalCooldownUntil {
        return false, globalCooldownUntil - now;
      }
      if globalCooldownUntil != ZERO {
        Reset();
      }
      if globalWindowEndsAt == ZERO || now >= globalWindowEndsAt {
        globalAttempts := 0;
        globalWindowEndsAt := now + RATE_WINDOW;
      }
      var exists' := ip in byIP;
      var state := if exists' then byIP[ip] else Source(0, ZERO, ZERO);
      if exists' && now < state.cooldownUntil {
        return false, state.cooldownUntil - now;
      }
      if !exists' || state.cooldownUntil != ZERO || now >= state.windowEndsAt {
        state := Source(0, now + RATE_WINDOW, ZERO);
      }
      if !exists' && |byIP| >= cfg.maxTriesOverall {
        BeginGlobalCooldown(now, cfg);
        return false, cfg.cooldownSeconds * SECOND;
      }
      state := state.(attempts := state.attempts + 1);
      globalAttempts := globalAttempts + 1;
      if state.attempts >= cfg.maxTries {
        state := state.(cooldownUntil := now + cfg.cooldownSeconds * SECOND);
      }
      byIP := byIP[ip := state];
      if globalAttempts >= cfg.maxTriesOverall {
        BeginGlobalCooldown(now, cfg);
      }
      return true, 0;
    }

    /** Deletes entries while ranging over the map. */
    method Sweep(now: Instant)
      modifies this`byIP
      ensures byIP == old(byIP) - Expired(old(byIP), now)
    {
      ghost var before := byIP;
      var todo := byIP.Keys;
      while todo != {}
        invariant todo <= before.Keys
        invariant forall ip :: ip in byIP <==> ip in before && (ip in todo || ip !in Expired(before, now))
        invariant forall ip | ip in byIP :: byIP[ip] == before[ip]
        decreases todo
      {
        var ip :| ip in todo;
        if now >= byIP[ip].windowEndsAt && now >= byIP[ip].cooldownUntil {
          byIP := byIP - {ip};
        }
        todo := todo - {ip};
      }
    }

    method CleanUp(now: Instant)
      modifies this
      ensures View() == Cleanup(old(View()), now)
    {
      if globalCooldownUntil != ZERO && now >= globalCooldownUntil {
        Reset();
        return;
      }
      Sweep(now);
      if globalWindowEndsAt != ZERO && now >= globalWindowEndsAt {
        globalAttempts := 0;
        globalWindowEndsAt := ZERO;
      }
    }
  }

  // ---------------------------------------------------------------- traces

  datatype Event = Attempt(ip: string, at: Instant) | Janitor(at: Instant)

  /** Events at nonzero, nondecreasing times. */
  ghost predicate Ordered(trace: seq<Event>) {
    && (forall i | 0 <= i < |trace| :: 0 < trace[i].at)
    && (forall i, j | 0 <= i < j < |trace| :: trace[i].at <= trace[j].at)
  }

  function Step(l: Limiter, event: Event, cfg: Config): Limiter {
    match event
    case Attempt(ip, now) => Allow(l, ip, now, cfg).0
    case Janitor(now) => Cleanup(l, now)
  }

  /** The limiter after a trace that starts with a reset. */
  function After(trace: seq<Event>, cfg: Config): Limiter {
    if trace == [] then FRESH
    else Step(After(trace[..|trace| - 1], cfg), trace[|trace| - 1], cfg)
  }

  /** The answer to the attempt at position i. */
  function AnswerTo(trace: seq<Event>, i: nat, cfg: Config): Answer
    requires i < |trace| && trace[i].Attempt?
  {
    Allow(After(trace[..i], cfg), trace[i].ip, trace[i].at, cfg).1
  }

  function Now(trace: seq<Event>): Instant {
    if trace == [] then ZERO else trace[|trace| - 1].at
  }

  /** Whose attempts are counted, and against which limit. */
  datatype Scope = One(ip: string) | Everyone

  predicate InScope(scope: Scope, event: Event) {
    event.Attempt? && (scope == Everyone || scope == One(event.ip))
  }

  function Limit(scope: Scope, cfg: Config): nat {
    if scope == Everyone then cfg.maxTriesOverall else cfg.maxTries
  }

  /** The event is an attempt in scope, and it is accepted. */
  predicate Accepts(l: Limiter, scope: Scope, event: Event, cfg: Config) {
    InScope(scope, event) && Allow(l, event.ip, event.at, cfg).1.ok
  }

  /** The times of the accepted attempts, oldest first. */
  function Accepted(trace: seq<Event>, scope: Scope, cfg: Config): seq<Instant> {
    if trace == [] then []
    else
      var front, last := trace[..|trace| - 1], trace[|trace| - 1];
      var times := Accepted(front, scope, cfg);
      if Accepts(After(front, cfg), scope, last, cfg) then times + [last.at] else times
  }

  // ---------------------------------------------------------------- invariant

  /** What holds after every operation up to `now`. */
  ghost predicate Valid(l: Limiter, now: Instant, cfg: Config) {
    && |l.byIP| <= cfg.maxTriesOverall
    && 0 <= l.globalAttempts < cfg.maxTriesOverall
    && l.globalCooldownUntil <= now + Cooldown(cfg)
    && l.globalWindowEndsAt <= now + RATE_WINDOW
    && (l.globalCooldownUntil != ZERO ==> l.byIP == map[] && l.globalAttempts == 0 && l.globalWindowEndsAt == ZERO)
    && (l.globalAttempts > 0 ==> l.globalWindowEndsAt != ZERO)
    && (forall ip | ip in l.byIP :: ValidSource(l.byIP[ip], now, cfg))
  }

  predicate ValidSource(source: Source, now: Instant, cfg: Config) {
    && 1 <= source.attempts <= cfg.maxTries
    && source.windowEndsAt <= now + RATE_WINDOW
    && source.cooldownUntil <= now + Cooldown(cfg)
    && (source.cooldownUntil == ZERO <==> source.attempts < cfg.maxTries)
  }

  lemma RollValid(l: Limiter, now: Instant, later: Instant, cfg: Config)
    requires ValidConfig(cfg) && Valid(l, now, cfg) && 0 < later && now <= later
    ensures Valid(RollGlobal(l, later), later, cfg)
    ensures RollGlobal(l, later).globalCooldownUntil == ZERO && RollGlobal(l, later).globalWindowEndsAt != ZERO
  {
  }

  lemma ChargeValid(l: Limiter, ip: string, now: Instant, cfg: Config)
    requires ValidConfig(cfg) && Valid(l, now, cfg) && 0 < now
    requires l.globalCooldownUntil == ZERO && l.globalWindowEndsAt != ZERO
    requires if ip in l.byIP then now >= l.byIP[ip].cooldownUntil else |l.byIP| < cfg.maxTriesOverall
    ensures Valid(Charge(l, ip, RollSource(l, ip, now), now, cfg), now, cfg)
  {
    var source := RollSource(l, ip, now);
    assert l.byIP[ip := source].Keys == l.byIP.Keys + {ip};
  }

  lemma AllowValid(l: Limiter, ip: string, now: Instant, later: Instant, cfg: Config)
    requires ValidConfig(cfg) && Valid(l, now, cfg) && 0 < later && now <= later
    ensures Valid(Allow(l, ip, later, cfg).0, later, cfg)
  {
    if later >= l.globalCooldownUntil {
      RollValid(l, now, later, cfg);
      var r := RollGlobal(l, later);
      if if ip in r.byIP then later >= r.byIP[ip].cooldownUntil else |r.byIP| < cfg.maxTriesOverall {
        ChargeValid(r, ip, later, cfg);
      }
    }
  }

  lemma CleanupValid(l: Limiter, now: Instant, later: Instant, cfg: Config)
    requires ValidConfig(cfg) && Valid(l, now, cfg) && 0 < later && now <= later
    ensures Valid(Cleanup(l, later), later, cfg)
  {
    var l' := Cleanup(l, later);
    SubsetSize(l'.byIP.Keys, l.byIP.Keys);
    assert |l'.byIP| == |l'.byIP.Keys| && |l.byIP| == |l.byIP.Keys|;
  }

  /** Every state of a trace is valid; in particular the map never holds more
      sources than the overall limit. */
  lemma {:induction false} TraceValid(trace: seq<Event>, cfg: Config)
    requires ValidConfig(cfg) && Ordered(trace)
    ensures Valid(After(trace, cfg), Now(trace), cfg)
  {
    if trace != [] {
      var front := trace[..|trace| - 1];
      TraceValid(front, cfg);
      match trace[|trace| - 1]
      case Attempt(ip, at) => AllowValid(After(front, cfg), ip, Now(front), at, cfg);
      case Janitor(at) => CleanupValid(After(front, cfg), Now(front), at, cfg);
    }
  }

  // ---------------------------------------------------------------- waiting times

  /** The source cannot be accepted before `until`. */
  predicate Blocked(l: Limiter, ip: string, until: Instant) {
    until <= l.globalCooldownUntil || (ip in l.byIP && until <= l.byIP[ip].cooldownUntil)
  }

  lemma BlockedRejects(l: Limiter, ip: string, until: Instant, now: Instant, cfg: Config)
    requires Blocked(l, ip, until) && now < until
    requires l.globalCooldownUntil != ZERO ==> l.byIP == map[]
    ensures !Allow(l, ip, now, cfg).1.ok
  {
  }

  /** No operation before that time lifts the block, not even a global wipe. */
  lemma BlockedStays(l: Limiter, ip: string, until: Instant, now: Instant, event: Event, cfg: Config)
    requires ValidConfig(cfg) && Valid(l, now, cfg) && Blocked(l, ip, until)
    requires until <= now + Cooldown(cfg)
    requires now <= event.at < until
    ensures Blocked(Step(l, event, cfg), ip, until)
  {
  }

  lemma PrefixIsOrdered(trace: seq<Event>, i: nat, j: nat)
    requires Ordered(trace) && i <= j <= |trace|
    ensures Ordered(trace[..j]) && Now(trace[..i]) <= Now(trace[..j])
    ensures j < |trace| ==> Now(trace[..j]) <= trace[j].at
  {
  }

  lemma BlockedAtNext(trace: seq<Event>, j: nat, until: Instant, ip: string, cfg: Config)
    requires ValidConfig(cfg) && Ordered(trace) && j < |trace| && trace[j].at < until <= Now(trace[..j]) + Cooldown(cfg)
    requires Blocked(After(trace[..j], cfg), ip, until)
    ensures Blocked(After(trace[..j + 1], cfg), ip, until)
  {
    AfterSnoc(trace, j, cfg);
    PrefixIsOrdered(trace, j, j);
    TraceValid(trace[..j], cfg);
    BlockedStays(After(trace[..j], cfg), ip, until, Now(trace[..j]), trace[j], cfg);
  }

  lemma {:induction false} BlockedInTrace(trace: seq<Event>, i: nat, j: nat, until: Instant, ip: string, cfg: Config)
    requires ValidConfig(cfg) && Ordered(trace) && i <= j <= |trace|
    requires Blocked(After(trace[..i], cfg), ip, until) && until <= Now(trace[..i]) + Cooldown(cfg)
    requires forall k | i <= k < j :: trace[k].at < until
    ensures Blocked(After(trace[..j], cfg), ip, until)
    decreases j - i
  {
    if i < j {
      BlockedInTrace(trace, i, j - 1, until, ip, cfg);
      PrefixIsOrdered(trace, i, j - 1);
      BlockedAtNext(trace, j - 1, until, ip, cfg);
    }
  }

  lemma NotAcceptedBefore(trace: seq<Event>, i: nat, j: nat, until: Instant, cfg: Config)
    requires ValidConfig(cfg) && Ordered(trace) && i < j < |trace|
    requires trace[j].Attempt? && AnswerTo(trace, j, cfg).ok
    requires Blocked(After(trace[..i + 1], cfg), trace[j].ip, until) && until <= trace[i].at + Cooldown(cfg)
    ensures until <= trace[j].at
  {
    if trace[j].at < until {
      BlockedInTrace(trace, i + 1, j, until, trace[j].ip, cfg);
      TraceValid(trace[..j], cfg);
      BlockedRejects(After(trace[..j], cfg), trace[j].ip, until, trace[j].at, cfg);
    }
  }

  lemma AfterSnoc(trace: seq<Event>, i: nat, cfg: Config)
    requires i < |trace|
    ensures After(trace[..i + 1], cfg) == Step(After(trace[..i], cfg), trace[i], cfg)
  {
    assert trace[..i + 1][..i] == trace[..i];
  }

  /** The wait returned with a rejection is a true lower bound: the source is not
      accepted again before it is over, whatever happens in between. */
  lemma WaitIsHonest(trace: seq<Event>, i: nat, j: nat, cfg: Config)
    requires ValidConfig(cfg) && Ordered(trace) && i < j < |trace|
    requires trace[i].Attempt? && trace[j].Attempt? && trace[i].ip == trace[j].ip
    requires !AnswerTo(trace, i, cfg).ok && AnswerTo(trace, j, cfg).ok
    ensures 0 < AnswerTo(trace, i, cfg).wait <= trace[j].at - trace[i].at
  {
    AfterSnoc(trace, i, cfg);
    TraceValid(trace[..i], cfg);
    NotAcceptedBefore(trace, i, j, trace[i].at + AnswerTo(trace, i, cfg).wait, cfg);
  }

  /** And it is exact: with nothing in between, coming back then is accepted. */
  lemma WaitIsExact(l: Limiter, ip: string, last: Instant, now: Instant, later: Instant, cfg: Config)
    requires ValidConfig(cfg) && Valid(l, last, cfg) && 0 < now && last <= now
    requires !Allow(l, ip, now, cfg).1.ok
    requires later >= now + Allow(l, ip, now, cfg).1.wait
    ensures Allow(Allow(l, ip, now, cfg).0, ip, later, cfg).1.ok
  {
  }

  /** The attempt is the last one its source, or all sources, may make. */
  predicate UsesLast(l: Limiter, ip: string, now: Instant, scope: Scope, cfg: Config) {
    var r := RollGlobal(l, now);
    && Allow(l, ip, now, cfg).1.ok
    && (if scope == Everyone then r.globalAttempts + 1 == cfg.maxTriesOverall
        else RollSource(r, ip, now).attempts + 1 == cfg.maxTries)
  }

  /** A source that uses its last attempt is not accepted for a whole cooldown, even
      if a global cooldown clears its entry; the last overall attempt shuts out
      every source as long. */
  lemma LastAttemptCostsCooldown(trace: seq<Event>, i: nat, j: nat, scope: Scope, cfg: Config)
    requires ValidConfig(cfg) && Ordered(trace) && i < j < |trace|
    requires InScope(scope, trace[i]) && InScope(scope, trace[j])
    requires UsesLast(After(trace[..i], cfg), trace[i].ip, trace[i].at, scope, cfg)
    requires AnswerTo(trace, j, cfg).ok
    ensures trace[j].at >= trace[i].at + Cooldown(cfg)
  {
    AfterSnoc(trace, i, cfg);
    NotAcceptedBefore(trace, i, j, trace[i].at + Cooldown(cfg), cfg);
  }

  /** The Retry-After header in seconds. */
  function RetryAfterSeconds(wait: int): int {
    var seconds := (wait + SECOND - 1) / SECOND;
    if seconds < 1 then 1 else seconds
  }

  /** Section 10.2.3 of RFC 9110: the delay covers the wait, by less than a second
      unless the wait is below one. */
  lemma RetryAfterCovers(wait: int)
    ensures RetryAfterSeconds(wait) * SECOND >= wait
    ensures RetryAfterSeconds(wait) == 1 || (RetryAfterSeconds(wait) - 1) * SECOND < wait
  {
  }

  // ---------------------------------------------------------------- cleanup is harmless

  /** Cleaning up right before an attempt changes its answer in one case only: a new
      source that found the map full of entries of which some had expired. */
  lemma CleanupHarmless(l: Limiter, ip: string, last: Instant, now: Instant, cfg: Config)
    requires ValidConfig(cfg) && Valid(l, last, cfg) && 0 < now && last <= now
    ensures Allow(Cleanup(l, now), ip, now, cfg).1.ok <==>
              Allow(l, ip, now, cfg).1.ok
              || (l.globalCooldownUntil == ZERO && ip !in l.byIP
                  && |l.byIP| >= cfg.maxTriesOverall && Expired(l.byIP, now) != {})
  {
    SweptSize(l.byIP, now);
  }

  lemma SweptSize(byIP: map<string, Source>, now: Instant)
    ensures |byIP - Expired(byIP, now)| == |byIP| - |Expired(byIP, now)|
    ensures Expired(byIP, now) != {} ==> |Expired(byIP, now)| > 0
  {
    var swept := byIP - Expired(byIP, now);
    SubsetSize(swept.Keys, byIP.Keys);
    assert swept.Keys == byIP.Keys - Expired(byIP, now);
    assert |swept.Keys| == |byIP.Keys| - |Expired(byIP, now)|;
    assert |swept| == |swept.Keys| && |byIP| == |byIP.Keys|;
  }

  // ---------------------------------------------------------------- allowances

  /** How accepted attempts were charged, newest event first: an allowance is
      opened and then takes attempts until another one is opened. */
  datatype Log =
    | Nothing
    | Opened(before: Log, at: Instant)
    | Taken(before: Log, at: Instant)

  /** The accepted attempts, oldest first. */
  function Times(log: Log): seq<Instant> {
    match log
    case Nothing => []
    case Opened(before, _) => Times(before)
    case Taken(before, at) => Times(before) + [at]
  }

  function LastStart(log: Log): Instant {
    match log
    case Nothing => ZERO
    case Opened(_, at) => at
    case Taken(before, _) => LastStart(before)
  }

  function LastTime(log: Log): Instant {
    match log
    case Nothing => ZERO
    case Opened(_, at) => at
    case Taken(_, at) => at
  }

  /** The attempts charged to the newest allowance. */
  function Count(log: Log): nat {
    match log
    case Nothing => 0
    case Opened(_, _) => 0
    case Taken(before, _) => Count(before) + 1
  }

  /** The log before the newest allowance was opened. */
  function Previous(log: Log): Log {
    match log
    case Nothing => Nothing
    case Opened(before, _) => before
    case Taken(before, _) => Previous(before)
  }

  /** The time within which the bounds count. */
  function Span(cfg: Config): int {
    if Cooldown(cfg) < RATE_WINDOW then Cooldown(cfg) else RATE_WINDOW
  }

  /** A new allowance may follow: a span after the last began and, if that one is
      used up, a cooldown after its last attempt. */
  predicate MayOpen(log: Log, t: Instant, limit: nat, cfg: Config) {
    log != Nothing ==>
      LastStart(log) + Span(cfg) <= t && LastTime(log) <= t && (Count(log) >= limit ==> LastTime(log) + Cooldown(cfg) <= t)
  }

  predicate Legal(log: Log, limit: nat, cfg: Config) {
    match log
    case Nothing => true
    case Opened(before, at) => Legal(before, limit, cfg) && MayOpen(before, at, limit, cfg)
    case Taken(before, at) =>
      Legal(before, limit, cfg) && before != Nothing && LastTime(before) <= at && Count(before) < limit
  }

  /** Every allowance was opened by its first attempt. */
  predicate Prompt(log: Log) {
    match log
    case Nothing => true
    case Opened(before, _) => Prompt(before)
    case Taken(before, at) => Prompt(before) && (before.Opened? ==> before.at == at)
  }

  lemma {:induction false} LogFacts(log: Log, limit: nat, cfg: Config)
    requires Legal(log, limit, cfg)
    ensures Count(log) <= limit
    ensures LastStart(log) <= LastTime(log)
    ensures |Times(log)| == |Times(Previous(log))| + Count(log)
    ensures Legal(Previous(log), limit, cfg)
    ensures log != Nothing ==> MayOpen(Previous(log), LastStart(log), limit, cfg)
  {
    match log
    case Nothing =>
    case Opened(_, _) =>
    case Taken(before, _) => LogFacts(before, limit, cfg);
  }

  /** Attempt i lies in what came before the newest allowance, or in it. */
  lemma {:induction false} TimesSplit(log: Log, limit: nat, cfg: Config, i: nat)
    requires Legal(log, limit, cfg) && i < |Times(log)|
    ensures Times(log)[i] <= LastTime(log)
    ensures i < |Times(Previous(log))| ==> Times(Previous(log))[i] == Times(log)[i]
    ensures Prompt(log) && i == |Times(Previous(log))| ==> Times(log)[i] == LastStart(log)
  {
    match log
    case Opened(before, _) =>
      TimesSplit(before, limit, cfg, i);
    case Taken(before, _) =>
      LogFacts(before, limit, cfg);
      if i < |Times(before)| { TimesSplit(before, limit, cfg, i); }
  }

  /** The newest attempt and the one 2 * limit - 1 before it are a span apart. */
  lemma NewestIsFar(log: Log, limit: nat, cfg: Config, i: nat)
    requires ValidConfig(cfg) && limit >= 1 && Legal(log, limit, cfg) && log.Taken?
    requires i + 2 * limit == |Times(log)|
    ensures Times(log)[i] + Span(cfg) <= log.at
  {
    var previous := Previous(log);
    LogFacts(log, limit, cfg);
    LogFacts(previous, limit, cfg);
    TimesSplit(log, limit, cfg, i);
    TimesSplit(previous, limit, cfg, i);
    if i < |Times(Previous(previous))| {
      TimesSplit(Previous(previous), limit, cfg, i);
    }
  }

  /** When allowances begin with an attempt, one less suffices. */
  lemma NewestIsFarPrompt(log: Log, limit: nat, cfg: Config, i: nat)
    requires ValidConfig(cfg) && limit >= 2 && Legal(log, limit, cfg) && Prompt(log) && log.Taken?
    requires i + 2 * limit - 1 == |Times(log)|
    ensures Times(log)[i] + Span(cfg) <= log.at
  {
    var previous := Previous(log);
    LogFacts(log, limit, cfg);
    LogFacts(previous, limit, cfg);
    PreviousPrompt(log);
    TimesSplit(log, limit, cfg, i);
    TimesSplit(previous, limit, cfg, i);
    if i < |Times(Previous(previous))| {
      TimesSplit(Previous(previous), limit, cfg, i);
    }
  }

  lemma {:induction false} PreviousPrompt(log: Log)
    requires Prompt(log)
    ensures Prompt(Previous(log))
  {
    match log
    case Taken(before, _) => PreviousPrompt(before);
    case _ =>
  }

  /** Any two accepted attempts less than a span apart are few positions apart. */
  lemma {:induction false} LogBound(log: Log, limit: nat, cfg: Config, k: nat, j: nat)
    requires ValidConfig(cfg) && limit >= 1 && Legal(log, limit, cfg)
    requires k <= j < |Times(log)| && Times(log)[j] - Times(log)[k] < Span(cfg)
    ensures j - k + 1 <= 2 * limit - 1
    ensures Prompt(log) && limit >= 2 ==> j - k + 1 <= 2 * limit - 2
  {
    match log
    case Opened(before, _) => LogBound(before, limit, cfg, k, j);
    case Taken(before, at) =>
      if j < |Times(before)| {
        LogBound(before, limit, cfg, k, j);
      } else {
        if j - k + 1 >= 2 * limit {
          var far := j + 1 - 2 * limit;
          TimesOrdered(log, limit, cfg, k, far);
          NewestIsFar(log, limit, cfg, far);
        }
        if Prompt(log) && limit >= 2 && j - k + 1 >= 2 * limit - 1 {
          var far := j + 2 - 2 * limit;
          TimesOrdered(log, limit, cfg, k, far);
          NewestIsFarPrompt(log, limit, cfg, far);
        }
      }
  }

  lemma {:induction false} TimesOrdered(log: Log, limit: nat, cfg: Config, i: nat, j: nat)
    requires Legal(log, limit, cfg) && i <= j < |Times(log)|
    ensures Times(log)[i] <= Times(log)[j]
  {
    match log
    case Opened(before, _) => TimesOrdered(before, limit, cfg, i, j);
    case Taken(before, at) =>
      if j < |Times(before)| {
        TimesOrdered(before, limit, cfg, i, j);
      } else {
        TimesSplit(log, limit, cfg, i);
      }
  }

  /** A wipe by a global cooldown leaves a new allowance open when it ends. */
  lemma WipeMayOpen(log: Log, limit: nat, now: Instant, cfg: Config)
    requires ValidConfig(cfg) && Legal(log, limit, cfg) && LastTime(log) <= now
    ensures MayOpen(log, now + Cooldown(cfg), limit, cfg)
  {
    LogFacts(log, limit, cfg);
  }

  /** The earliest time at which a fresh allowance can be opened. */
  function Gate(l: Limiter, now: Instant): Instant {
    if now < l.globalCooldownUntil then l.globalCooldownUntil else now
  }

  // ---------------------------------------------------------------- one source

  /** A source without an entry may only be given a new allowance; one with an entry
      is in the allowance the entry describes. */
  predicate SourceLink(log: Log, l: Limiter, ip: string, now: Instant, cfg: Config) {
    && Legal(log, cfg.maxTries, cfg) && Prompt(log) && !log.Opened? && LastTime(log) <= now
    && (if ip in l.byIP then EntryLink(log, l.byIP[ip], cfg) else MayOpen(log, Gate(l, now), cfg.maxTries, cfg))
  }

  predicate EntryLink(log: Log, source: Source, cfg: Config) {
    && log != Nothing
    && source.attempts == Count(log)
    && source.windowEndsAt == LastStart(log) + RATE_WINDOW
    && source.cooldownUntil == if Count(log) < cfg.maxTries then ZERO else LastTime(log) + Cooldown(cfg)
  }

  /** The entry the attempt would be charged to is a continued one. */
  predicate Continues(l: Limiter, ip: string, now: Instant) {
    ip in l.byIP && l.byIP[ip].cooldownUntil == ZERO && now < l.byIP[ip].windowEndsAt
  }

  function SourceStep(log: Log, l: Limiter, ip: string, event: Event, cfg: Config): Log {
    if !Accepts(l, One(ip), event, cfg) then log
    else if Continues(l, ip, event.at) then Taken(log, event.at)
    else Taken(Opened(log, event.at), event.at)
  }

  lemma SourceCleanup(log: Log, l: Limiter, ip: string, now: Instant, at: Instant, cfg: Config)
    requires ValidConfig(cfg) && Valid(l, now, cfg) && SourceLink(log, l, ip, now, cfg) && now <= at && 0 < at
    ensures SourceLink(log, Cleanup(l, at), ip, at, cfg)
  {
    LogFacts(log, cfg.maxTries, cfg);
  }

  lemma SourceRejected(log: Log, l: Limiter, ip: string, now: Instant, other: string, at: Instant, cfg: Config)
    requires ValidConfig(cfg) && Valid(l, now, cfg) && SourceLink(log, l, ip, now, cfg) && now <= at && 0 < at
    requires other != ip || !Allow(l, ip, at, cfg).1.ok
    ensures SourceLink(log, Allow(l, other, at, cfg).0, ip, at, cfg)
  {
    WipeMayOpen(log, cfg.maxTries, at, cfg);
  }

  /** What the accepted attempt leaves behind for its source. */
  lemma AcceptedEntry(l: Limiter, ip: string, at: Instant, cfg: Config)
    requires l.globalCooldownUntil != ZERO ==> l.byIP == map[]
    requires ValidConfig(cfg) && 0 < at && Allow(l, ip, at, cfg).1.ok
    ensures var l' := Allow(l, ip, at, cfg).0;
            var count := if Continues(l, ip, at) then l.byIP[ip].attempts + 1 else 1;
            if ip in l'.byIP
            then l'.byIP[ip] == Source(count,
                                       if Continues(l, ip, at) then l.byIP[ip].windowEndsAt else at + RATE_WINDOW,
                                       if count >= cfg.maxTries then at + Cooldown(cfg) else ZERO)
            else l'.globalCooldownUntil == at + Cooldown(cfg)
  {
  }

  lemma SourceAccepted(log: Log, l: Limiter, ip: string, now: Instant, at: Instant, cfg: Config)
    requires ValidConfig(cfg) && Valid(l, now, cfg) && SourceLink(log, l, ip, now, cfg) && now <= at && 0 < at
    requires Allow(l, ip, at, cfg).1.ok
    ensures SourceLink(SourceStep(log, l, ip, Attempt(ip, at), cfg), Allow(l, ip, at, cfg).0, ip, at, cfg)
  {
    LogFacts(log, cfg.maxTries, cfg);
    AcceptedEntry(l, ip, at, cfg);
    if Continues(l, ip, at) {
      assert Legal(Taken(log, at), cfg.maxTries, cfg);
      WipeMayOpen(Taken(log, at), cfg.maxTries, at, cfg);
    } else {
      assert MayOpen(log, at, cfg.maxTries, cfg);
      assert Legal(Opened(log, at), cfg.maxTries, cfg);
      assert Legal(Taken(Opened(log, at), at), cfg.maxTries, cfg);
      WipeMayOpen(Taken(Opened(log, at), at), cfg.maxTries, at, cfg);
    }
  }

  lemma SourceStepKeeps(log: Log, l: Limiter, ip: string, now: Instant, event: Event, cfg: Config)
    requires ValidConfig(cfg) && Valid(l, now, cfg) && SourceLink(log, l, ip, now, cfg)
    requires now <= event.at && 0 < event.at
    ensures SourceLink(SourceStep(log, l, ip, event, cfg), Step(l, event, cfg), ip, event.at, cfg)
  {
    match event
    case Janitor(at) => SourceCleanup(log, l, ip, now, at, cfg);
    case Attempt(other, at) =>
      if other == ip && Allow(l, ip, at, cfg).1.ok {
        SourceAccepted(log, l, ip, now, at, cfg);
      } else {
        SourceRejected(log, l, ip, now, other, at, cfg);
      }
  }

  function SourceLog(trace: seq<Event>, ip: string, cfg: Config): Log {
    if trace == [] then Nothing
    else
      var front := trace[..|trace| - 1];
      SourceStep(SourceLog(front, ip, cfg), After(front, cfg), ip, trace[|trace| - 1], cfg)
  }

  /** Every trace charges a source's attempts legally. */
  lemma {:induction false} SourceLogLegal(trace: seq<Event>, ip: string, cfg: Config)
    requires ValidConfig(cfg) && Ordered(trace)
    ensures SourceLink(SourceLog(trace, ip, cfg), After(trace, cfg), ip, Now(trace), cfg)
    ensures Times(SourceLog(trace, ip, cfg)) == Accepted(trace, One(ip), cfg)
  {
    if trace != [] {
      var front := trace[..|trace| - 1];
      SourceLogLegal(front, ip, cfg);
      TraceValid(front, cfg);
      SourceStepKeeps(SourceLog(front, ip, cfg), After(front, cfg), ip, Now(front), trace[|trace| - 1], cfg);
    }
  }

  // ---------------------------------------------------------------- all sources

  /** The global window is the newest allowance, or a new one is due. */
  predicate GlobalLink(log: Log, l: Limiter, now: Instant, cfg: Config) {
    && Legal(log, cfg.maxTriesOverall, cfg) && LastTime(log) <= now
    && (if l.globalWindowEndsAt == ZERO then MayOpen(log, Gate(l, now), cfg.maxTriesOverall, cfg)
        else
          && log != Nothing
          && l.globalAttempts == Count(log)
          && l.globalWindowEndsAt == LastStart(log) + RATE_WINDOW)
  }

  /** The attempt starts a new global window, whether or not it is accepted. */
  predicate Rolls(l: Limiter, at: Instant) {
    l.globalCooldownUntil != ZERO || l.globalWindowEndsAt == ZERO || at >= l.globalWindowEndsAt
  }

  function GlobalStep(log: Log, l: Limiter, event: Event, cfg: Config): Log {
    if event.Janitor? || event.at < l.globalCooldownUntil then log
    else
      var log := if Rolls(l, event.at) then Opened(log, event.at) else log;
      if Allow(l, event.ip, event.at, cfg).1.ok then Taken(log, event.at) else log
  }

  lemma GlobalCleanup(log: Log, l: Limiter, now: Instant, at: Instant, cfg: Config)
    requires ValidConfig(cfg) && Valid(l, now, cfg) && GlobalLink(log, l, now, cfg) && now <= at && 0 < at
    ensures GlobalLink(log, Cleanup(l, at), at, cfg)
  {
    LogFacts(log, cfg.maxTriesOverall, cfg);
  }

  lemma GlobalRolled(log: Log, l: Limiter, now: Instant, at: Instant, cfg: Config)
    requires ValidConfig(cfg) && Valid(l, now, cfg) && GlobalLink(log, l, now, cfg)
    requires now <= at && 0 < at && l.globalCooldownUntil <= at
    ensures var rolled := RollGlobal(l, at);
            GlobalLink(if Rolls(l, at) then Opened(log, at) else log, rolled, at, cfg)
            && rolled.globalWindowEndsAt != ZERO && rolled.globalAttempts < cfg.maxTriesOverall
  {
    LogFacts(log, cfg.maxTriesOverall, cfg);
    if Rolls(l, at) {
      assert MayOpen(log, at, cfg.maxTriesOverall, cfg);
    }
  }

  lemma GlobalAttempt(log: Log, l: Limiter, now: Instant, ip: string, at: Instant, cfg: Config)
    requires ValidConfig(cfg) && Valid(l, now, cfg) && GlobalLink(log, l, now, cfg)
    requires now <= at && 0 < at && l.globalCooldownUntil <= at
    ensures GlobalLink(GlobalStep(log, l, Attempt(ip, at), cfg), Allow(l, ip, at, cfg).0, at, cfg)
  {
    GlobalRolled(log, l, now, at, cfg);
    var rolled := if Rolls(l, at) then Opened(log, at) else log;
    WipeMayOpen(rolled, cfg.maxTriesOverall, at, cfg);
    if Allow(l, ip, at, cfg).1.ok {
      assert Legal(Taken(rolled, at), cfg.maxTriesOverall, cfg);
      WipeMayOpen(Taken(rolled, at), cfg.maxTriesOverall, at, cfg);
    }
  }

  function GlobalLog(trace: seq<Event>, cfg: Config): Log {
    if trace == [] then Nothing
    else
      var front := trace[..|trace| - 1];
      GlobalStep(GlobalLog(front, cfg), After(front, cfg), trace[|trace| - 1], cfg)
  }

  /** Every trace charges all attempts together legally. */
  lemma {:induction false} GlobalLogLegal(trace: seq<Event>, cfg: Config)
    requires ValidConfig(cfg) && Ordered(trace)
    ensures GlobalLink(GlobalLog(trace, cfg), After(trace, cfg), Now(trace), cfg)
    ensures Times(GlobalLog(trace, cfg)) == Accepted(trace, Everyone, cfg)
  {
    if trace != [] {
      var front := trace[..|trace| - 1];
      GlobalLogLegal(front, cfg);
      TraceValid(front, cfg);
      GlobalLogStep(GlobalLog(front, cfg), After(front, cfg), Now(front), trace[|trace| - 1], cfg);
    }
  }

  lemma GlobalLogStep(log: Log, l: Limiter, now: Instant, event: Event, cfg: Config)
    requires ValidConfig(cfg) && Valid(l, now, cfg) && GlobalLink(log, l, now, cfg)
    requires now <= event.at && 0 < event.at
    ensures GlobalLink(GlobalStep(log, l, event, cfg), Step(l, event, cfg), event.at, cfg)
    ensures Times(GlobalStep(log, l, event, cfg)) ==
            if Accepts(l, Everyone, event, cfg) then Times(log) + [event.at] else Times(log)
  {
    match event
    case Janitor(at) => GlobalCleanup(log, l, now, at, cfg);
    case Attempt(ip, at) =>
      if l.globalCooldownUntil <= at { GlobalAttempt(log, l, now, ip, at, cfg); }
  }

  // ---------------------------------------------------------------- the bounds

  /** For one source, and for all sources together: accepted attempts k to j that
      lie within less than min(cooldown, ten minutes) number at most 2 * limit - 1. */
  lemma RateBound(trace: seq<Event>, scope: Scope, k: nat, j: nat, cfg: Config)
    requires ValidConfig(cfg) && Ordered(trace)
    requires k <= j < |Accepted(trace, scope, cfg)|
    requires Accepted(trace, scope, cfg)[j] - Accepted(trace, scope, cfg)[k] < Span(cfg)
    ensures j - k + 1 <= 2 * Limit(scope, cfg) - 1
  {
    match scope
    case Everyone =>
      GlobalLogLegal(trace, cfg);
      LogBound(GlobalLog(trace, cfg), cfg.maxTriesOverall, cfg, k, j);
    case One(ip) =>
      SourceLogLegal(trace, ip, cfg);
      LogBound(SourceLog(trace, ip, cfg), cfg.maxTries, cfg, k, j);
  }

  /** A single source gets one attempt less, because its windows only begin with an
      accepted attempt: at most 2 * limit - 2, or one when the limit is one. */
  lemma SourceRateBound(trace: seq<Event>, ip: string, k: nat, j: nat, cfg: Config)
    requires ValidConfig(cfg) && Ordered(trace)
    requires k <= j < |Accepted(trace, One(ip), cfg)|
    requires Accepted(trace, One(ip), cfg)[j] - Accepted(trace, One(ip), cfg)[k] < Span(cfg)
    ensures j - k + 1 <= if cfg.maxTries == 1 then 1 else 2 * cfg.maxTries - 2
  {
    SourceLogLegal(trace, ip, cfg);
    LogBound(SourceLog(trace, ip, cfg), cfg.maxTries, cfg, k, j);
  }
}
