/**
 * What the tenant quota's retry-after is worth to a client that comes back: exactly when a refusal
 * recurs, for each of the three limits (src/quota/tenant/evaluator.ts:43-57, 59-224).
 */
module TenantRetry {
  import opened Text
  import opened Windows
  import opened TenantQuota
  import opened TenantRuns

  // ----- entries alone

  /** Before the last of the seconds named, the oldest entry is still inside, and so are all others. */
  lemma EarlyUsageStays(entries: seq<Entry>, project: Option<string>, width: int, now: int, t: int)
    requires Ordered(SPENT, entries, now)
    requires now <= t <= now + 1000 * (RetryAfter(entries, width, now) - 1)
    ensures SumAfter(Usage(project), entries, t - width) == SumAfter(Usage(project), entries, now - width)
  {
    var k := FirstInside(SPENT, entries, now - width);
    if k < |entries| {
      OldestLeaves(entries, width, now);
      assert forall j | k <= j < |entries| :: SPENT.time(entries[k]) <= SPENT.time(entries[j]);
    }
    SumAfterGap(Usage(project), entries, now - width, t - width);
  }

  /** The seconds named are the time until the oldest entry inside the window leaves, rounded up. */
  lemma OldestLeaves(entries: seq<Entry>, width: int, now: int)
    requires Ordered(SPENT, entries, now) && FirstInside(SPENT, entries, now - width) < |entries|
    ensures var k, r := FirstInside(SPENT, entries, now - width), RetryAfter(entries, width, now);
            now + 1000 * (r - 1) < entries[k].timestamp + width <= now + 1000 * r
  {
  }

  lemma LateUsageDrops(entries: seq<Entry>, width: int, now: int, t: int)
    requires Ordered(SPENT, entries, now) && Counted(entries)
    requires SumAfter(Usage(None), entries, now - width) > 0 && t >= now + 1000 * RetryAfter(entries, width, now)
    ensures SumAfter(Usage(None), entries, t - width) < SumAfter(Usage(None), entries, now - width)
  {
    var k := FirstInside(SPENT, entries, now - width);
    if k == |entries| {
      SumAfterNone(Usage(None), entries, now - width);
    } else {
      OldestLeaves(entries, width, now);
      assert NonNegative(Usage(None), entries);
      SumAfterDrops(Usage(None), entries, k, now - width, t - width);
    }
  }

  // ----- runs

  lemma {:induction false} KeepCounted(log: seq<Entry>, cutoff: int)
    requires Counted(log)
    ensures Counted(Keep(SPENT, log, cutoff))
  {
    if log != [] {
      KeepCounted(log[..|log| - 1], cutoff);
    }
  }

  /** No admission, no reset and no change of tier. */
  predicate Quiet(cfg: Config, w: World, ops: seq<Op>)
    decreases |ops|
  {
    ops == [] ||
    (&& !ops[0].SetTier? && !ops[0].Reset? && !Admits(cfg, w.state, ops[0])
     && Quiet(cfg, Apply(cfg, w, ops[0]), ops[1..]))
  }

  lemma {:induction false} QuietRun(cfg: Config, w: World, ops: seq<Op>)
    requires Consistent(cfg, w) && Timely(ops, w.clock) && Quiet(cfg, w, ops)
    ensures Consistent(cfg, Run(cfg, w, ops)) && Run(cfg, w, ops).log == w.log
    ensures SavedTier(cfg, Run(cfg, w, ops).state) == SavedTier(cfg, w.state)
    decreases |ops|
  {
    if ops != [] {
      StepConsistent(cfg, w, ops[0]);
      QuietStep(cfg, w, ops[0]);
      QuietRun(cfg, Apply(cfg, w, ops[0]), ops[1..]);
    }
  }

  lemma QuietStep(cfg: Config, w: World, op: Op)
    requires Consistent(cfg, w) && !op.SetTier? && !op.Reset? && !Admits(cfg, w.state, op)
    ensures NextLog(cfg, w, op) == w.log && SavedTier(cfg, NextState(cfg, w.state, op)) == SavedTier(cfg, w.state)
  {
  }

  lemma RetryNamed(cfg: Config, s: State, r: Request, now: int)
    requires ConsumeDecision(cfg, s, r, now).verdict in {UserExhausted, SubCapExceeded}
    ensures Own(cfg, r)
    ensures ConsumeDecision(cfg, s, r, now).retryAfterSeconds
            == Some(RetryAfter(Found(cfg, s, now).entries, cfg.rpmMs, now))
  {
  }

  lemma FoundOrdered(cfg: Config, w: World, now: int)
    requires Consistent(cfg, w) && Counted(w.log) && w.clock <= now
    ensures Ordered(SPENT, Found(cfg, w.state, now).entries, now) && Counted(Found(cfg, w.state, now).entries)
  {
    FoundIsLog(cfg, w, now);
    KeepOrdered(SPENT, w.log, now - cfg.rpdMs, now);
    KeepCounted(w.log, now - cfg.rpdMs);
  }

  /** Minute usage of the log at a later moment, told by the entries found at an earlier one. */
  lemma LaterUse(cfg: Config, w: World, entries: seq<Entry>, project: Option<string>, now: int, t: int)
    requires cfg.rpmMs <= cfg.rpdMs && Consistent(cfg, w) && w.clock <= now <= t
    requires entries == Found(cfg, w.state, now).entries
    ensures MinuteUse(cfg, entries, project, t) == MinuteUse(cfg, w.log, project, t)
  {
    UsageIsLogged(cfg, w, project, now, t - cfg.rpmMs);
  }

  lemma EarlyUseStays(cfg: Config, entries: seq<Entry>, project: Option<string>, now: int, t: int)
    requires Ordered(SPENT, entries, now)
    requires now <= t <= now + 1000 * (RetryAfter(entries, cfg.rpmMs, now) - 1)
    ensures MinuteUse(cfg, entries, project, t) == MinuteUse(cfg, entries, project, now)
  {
    EarlyUsageStays(entries, project, cfg.rpmMs, now, t);
  }

  /** Within the seconds named, the logged minute usage of the tenant and of each project stays what it is. */
  lemma EarlyLogStays(cfg: Config, w: World, entries: seq<Entry>, project: Option<string>, now: int, t: int)
    requires cfg.rpmMs <= cfg.rpdMs && Consistent(cfg, w) && Counted(w.log) && w.clock <= now <= t
    requires entries == Found(cfg, w.state, now).entries
    requires t <= now + 1000 * (RetryAfter(entries, cfg.rpmMs, now) - 1)
    ensures MinuteUse(cfg, w.log, project, t) == MinuteUse(cfg, w.log, project, now)
  {
    LaterUse(cfg, w, entries, project, now, now);
    LaterUse(cfg, w, entries, project, now, t);
    FoundOrdered(cfg, w, now);
    EarlyUseStays(cfg, entries, project, now, t);
  }

  lemma LateLogDrops(cfg: Config, w: World, entries: seq<Entry>, now: int, t: int)
    requires cfg.rpmMs <= cfg.rpdMs && Consistent(cfg, w) && Counted(w.log) && w.clock <= now
    requires entries == Found(cfg, w.state, now).entries && t >= now + 1000 * RetryAfter(entries, cfg.rpmMs, now)
    requires MinuteUse(cfg, w.log, None, now) > 0
    ensures MinuteUse(cfg, w.log, None, t) < MinuteUse(cfg, w.log, None, now)
  {
    FoundOrdered(cfg, w, now);
    LaterUse(cfg, w, entries, None, now, now);
    LaterUse(cfg, w, entries, None, now, t);
    LateUseDrops(cfg, entries, now, t);
  }

  lemma LateUseDrops(cfg: Config, entries: seq<Entry>, now: int, t: int)
    requires Ordered(SPENT, entries, now) && Counted(entries)
    requires MinuteUse(cfg, entries, None, now) > 0 && t >= now + 1000 * RetryAfter(entries, cfg.rpmMs, now)
    ensures MinuteUse(cfg, entries, None, t) < MinuteUse(cfg, entries, None, now)
  {
    LateUsageDrops(entries, cfg.rpmMs, now, t);
  }

  lemma UseShrinks(cfg: Config, log: seq<Entry>, project: Option<string>, now: int, t: int)
    requires Counted(log) && now <= t
    ensures 0 <= MinuteUse(cfg, log, project, t) <= MinuteUse(cfg, log, project, now)
    ensures 0 <= DayUse(cfg, log, t) <= DayUse(cfg, log, now)
  {
    assert NonNegative(Usage(project), log) && NonNegative(Usage(None), log);
    SumAfterShrinks(Usage(project), log, now - cfg.rpmMs, t - cfg.rpmMs);
    SumAfterShrinks(Usage(None), log, now - cfg.rpdMs, t - cfg.rpdMs);
    SumAfterNonNegative(Usage(project), log, t - cfg.rpmMs);
    SumAfterNonNegative(Usage(None), log, t - cfg.rpdMs);
  }

  // ----- a client that comes back

  /** A run, a request at `now`, steps that admit nothing, and the same request again at `t`. */
  datatype Visit = Visit(clock: int, ops: seq<Op>, now: int, quiet: seq<Op>, t: int)

  function Before(cfg: Config, v: Visit): World { Run(cfg, Start(cfg, v.clock), v.ops) }

  function After(cfg: Config, v: Visit): World { Run(cfg, Before(cfg, v), v.quiet) }

  /** What the run says of the two requests, evictions, restarts, refusals and debt steps in between. */
  predicate Possible(cfg: Config, v: Visit) {
    && Timely(v.ops, v.clock) && Before(cfg, v).clock <= v.now <= v.t
    && Timely(v.quiet, Before(cfg, v).clock) && Quiet(cfg, Before(cfg, v), v.quiet) && After(cfg, v).clock <= v.t
  }

  function First(cfg: Config, v: Visit, r: Request): Decision { ConsumeDecision(cfg, Before(cfg, v).state, r, v.now) }

  function Second(cfg: Config, v: Visit, r: Request): Decision { ConsumeDecision(cfg, After(cfg, v).state, r, v.t) }

  function TierOf(cfg: Config, v: Visit, r: Request): Tier { EffectiveTier(cfg, Before(cfg, v).state, r) }

  lemma ComingBack(cfg: Config, v: Visit)
    requires Possible(cfg, v)
    ensures var w, later := Before(cfg, v), After(cfg, v);
            && Consistent(cfg, w) && Counted(w.log) && Consistent(cfg, later)
            && later.log == w.log && SavedTier(cfg, later.state) == SavedTier(cfg, w.state)
  {
    LogShape(cfg, v.clock, v.ops);
    QuietRun(cfg, Before(cfg, v), v.quiet);
  }

  /** The limit a refusal was about is exceeded, by the log, at time t too. */
  predicate StillOver(cfg: Config, tier: Tier, log: seq<Entry>, r: Request, verdict: Verdict, t: int) {
    match verdict
    case UserExhausted => MinuteOver(cfg, tier, log, r, t)
    case UserDailyExhausted => DayOver(cfg, tier, log, r, t)
    case SubCapExceeded => ProjectOver(cfg, tier, log, r, t)
    case _ => false
  }

  predicate Refused(verdict: Verdict) { verdict in {UserExhausted, UserDailyExhausted, SubCapExceeded} }

  /** A refusal recurs exactly while its own limit is exceeded: the other usages only shrink. */
  lemma RefusalRecurs(cfg: Config, v: Visit, r: Request)
    requires cfg.rpmMs <= cfg.rpdMs && Possible(cfg, v) && Refused(First(cfg, v, r).verdict)
    ensures var verdict := First(cfg, v, r).verdict;
            Second(cfg, v, r).verdict == verdict
            <==> StillOver(cfg, TierOf(cfg, v, r), Before(cfg, v).log, r, verdict, v.t)
  {
    var w := Before(cfg, v);
    ComingBack(cfg, v);
    VerdictByLog(cfg, w, r, v.now);
    VerdictByLog(cfg, After(cfg, v), r, v.t);
    UseShrinks(cfg, w.log, None, v.now, v.t);
    UseShrinks(cfg, w.log, Project(r), v.now, v.t);
  }

  /**
   * Coming back too early never helps against the minute limits: a request refused for the minute
   * limit of the tenant or of its project, with s seconds to wait, is refused for the same reason
   * at every moment up to s - 1 seconds on.
   */
  lemma EarlyRetryIsRefused(cfg: Config, v: Visit, r: Request)
    requires cfg.rpmMs <= cfg.rpdMs && Possible(cfg, v)
    requires First(cfg, v, r).verdict in {UserExhausted, SubCapExceeded}
    requires v.t <= v.now + 1000 * (First(cfg, v, r).retryAfterSeconds.value - 1)
    ensures Second(cfg, v, r).verdict == First(cfg, v, r).verdict
  {
    var w := Before(cfg, v);
    ComingBack(cfg, v);
    RetryNamed(cfg, w.state, r, v.now);
    VerdictByLog(cfg, w, r, v.now);
    RefusalRecurs(cfg, v, r);
    var entries := Found(cfg, w.state, v.now).entries;
    EarlyLogStays(cfg, w, entries, None, v.now, v.t);
    EarlyLogStays(cfg, w, entries, Project(r), v.now, v.t);
  }

  // ----- exactly when coming back helps

  /** The weight that leaves the minute window, and the day window, between the two requests. */
  function MinuteFreed(cfg: Config, v: Visit, project: Option<string>): int {
    SumWithin(Usage(project), Before(cfg, v).log, v.now - cfg.rpmMs, v.t - cfg.rpmMs)
  }

  function DayFreed(cfg: Config, v: Visit): int {
    SumWithin(Usage(None), Before(cfg, v).log, v.now - cfg.rpdMs, v.t - cfg.rpdMs)
  }

  lemma FreedUse(cfg: Config, v: Visit, project: Option<string>)
    requires v.now <= v.t
    ensures var log := Before(cfg, v).log;
            && MinuteUse(cfg, log, project, v.t) == MinuteUse(cfg, log, project, v.now) - MinuteFreed(cfg, v, project)
            && DayUse(cfg, log, v.t) == DayUse(cfg, log, v.now) - DayFreed(cfg, v)
  {
    SumAfterSplits(Usage(project), Before(cfg, v).log, v.now - cfg.rpmMs, v.t - cfg.rpmMs);
    SumAfterSplits(Usage(None), Before(cfg, v).log, v.now - cfg.rpdMs, v.t - cfg.rpdMs);
  }

  /**
   * A request refused for the minute limit is refused for it no more, at any later moment, exactly
   * when the weight that has left the window by then makes up for what was missing.
   */
  lemma MinuteRetryExactly(cfg: Config, v: Visit, r: Request)
    requires cfg.rpmMs <= cfg.rpdMs && Possible(cfg, v) && First(cfg, v, r).verdict.UserExhausted?
    ensures var limit := Limits(TierOf(cfg, v, r)).rpm;
            limit.Some? &&
            (!Second(cfg, v, r).verdict.UserExhausted? <==>
             MinuteFreed(cfg, v, None) >= First(cfg, v, r).currentRpm + Weight(r) - limit.value)
  {
    ComingBack(cfg, v);
    VerdictByLog(cfg, Before(cfg, v), r, v.now);
    RefusalRecurs(cfg, v, r);
    FreedUse(cfg, v, None);
  }

  /** The same for a project's limit, and the weight its own entries have freed. */
  lemma ProjectRetryExactly(cfg: Config, v: Visit, r: Request)
    requires cfg.rpmMs <= cfg.rpdMs && Possible(cfg, v) && First(cfg, v, r).verdict.SubCapExceeded?
    ensures var limit, used := ProjectLimit(TierOf(cfg, v, r), r.subCap), First(cfg, v, r).currentProjectRpm;
            limit.Some? && used.Some? &&
            (!Second(cfg, v, r).verdict.SubCapExceeded? <==>
             MinuteFreed(cfg, v, Project(r)) >= used.value + Weight(r) - limit.value)
  {
    ComingBack(cfg, v);
    VerdictByLog(cfg, Before(cfg, v), r, v.now);
    RefusalRecurs(cfg, v, r);
    FreedUse(cfg, v, Project(r));
  }

  /** The same for the daily limit, and the weight that has left the day window. */
  lemma DayRetryExactly(cfg: Config, v: Visit, r: Request)
    requires cfg.rpmMs <= cfg.rpdMs && Possible(cfg, v) && First(cfg, v, r).verdict.UserDailyExhausted?
    ensures var limit := Limits(TierOf(cfg, v, r)).rpd;
            limit.Some? && First(cfg, v, r).retryAfterSeconds == Some(86400) &&
            (!Second(cfg, v, r).verdict.UserDailyExhausted? <==>
             DayFreed(cfg, v) >= First(cfg, v, r).currentRpd + Weight(r) - limit.value)
  {
    ComingBack(cfg, v);
    VerdictByLog(cfg, Before(cfg, v), r, v.now);
    RefusalRecurs(cfg, v, r);
    FreedUse(cfg, v, None);
    DailyWaitNamed(cfg, Before(cfg, v).state, r, v.now);
  }

  lemma DailyWaitNamed(cfg: Config, s: State, r: Request, now: int)
    requires ConsumeDecision(cfg, s, r, now).verdict.UserDailyExhausted?
    ensures ConsumeDecision(cfg, s, r, now).retryAfterSeconds == Some(86400)
  {
  }

  lemma AllFreed(cfg: Config, w: World, project: Option<string>, now: int, t: int)
    requires Consistent(cfg, w) && w.clock <= now
    ensures t >= now + cfg.rpmMs ==> MinuteUse(cfg, w.log, project, t) == 0
    ensures t >= now + cfg.rpdMs ==> DayUse(cfg, w.log, t) == 0
  {
    assert NotLater(SPENT, w.log, now);
    if t >= now + cfg.rpmMs {
      assert NotLater(Usage(project), w.log, t - cfg.rpmMs);
      SumAfterNone(Usage(project), w.log, t - cfg.rpmMs);
    }
    if t >= now + cfg.rpdMs {
      assert NotLater(Usage(None), w.log, t - cfg.rpdMs);
      SumAfterNone(Usage(None), w.log, t - cfg.rpdMs);
    }
  }

  /** With a day window of at most a day, the day named suffices exactly for requests that fit the daily limit. */
  lemma DayWaitSuffices(cfg: Config, v: Visit, r: Request)
    requires cfg.rpmMs <= cfg.rpdMs <= 86400000 && Possible(cfg, v) && First(cfg, v, r).verdict.UserDailyExhausted?
    requires v.t >= v.now + 86400000
    ensures First(cfg, v, r).retryAfterSeconds == Some(86400)
    ensures !Second(cfg, v, r).verdict.UserDailyExhausted? <==> !Over(Limits(TierOf(cfg, v, r)).rpd, 0, Weight(r))
  {
    DayRetryExactly(cfg, v, r);
    ComingBack(cfg, v);
    RefusalRecurs(cfg, v, r);
    AllFreed(cfg, Before(cfg, v), None, v.now, v.t);
  }

  /**
   * Coming back in time helps a request of weight one: if the minute usage named in the refusal is
   * no more than the limit, which is at least one, the minute limit refuses it no more from s seconds on.
   */
  lemma RetryHelpsSingleRequests(cfg: Config, v: Visit, r: Request)
    requires cfg.rpmMs <= cfg.rpdMs && Possible(cfg, v) && Weight(r) == 1
    requires var d := First(cfg, v, r);
             d.verdict.UserExhausted? && v.t >= v.now + 1000 * d.retryAfterSeconds.value
    requires var limit := Limits(TierOf(cfg, v, r)).rpm;
             limit.Some? && 1 <= limit.value && First(cfg, v, r).currentRpm <= limit.value
    ensures !Second(cfg, v, r).verdict.UserExhausted?
  {
    var w := Before(cfg, v);
    ComingBack(cfg, v);
    RetryNamed(cfg, w.state, r, v.now);
    VerdictByLog(cfg, w, r, v.now);
    RefusalRecurs(cfg, v, r);
    LateLogDrops(cfg, w, Found(cfg, w.state, v.now).entries, v.now, v.t);
  }
}
