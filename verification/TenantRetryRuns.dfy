/**
 * For which requests the tenant quota's retry-after can be trusted in all runs, and the runs in
 * which it cannot (src/quota/tenant/evaluator.ts:43-57, 59-224).
 */
module TenantRetryRuns {
  import opened Text
  import opened Windows
  import opened TenantQuota
  import opened TenantRuns
  import opened TenantRetry

  // ----- building runs

  function Plain(count: int): Request { Request(None, None, None, None, 0, Some(count), false) }

  function OfProject(project: string, subCap: int, count: int): Request {
    Request(None, Some(project), None, Some(subCap), 0, Some(count), false)
  }

  /** A request that is over no limit of its tier is admitted and logged, and the tier stays. */
  lemma Admission(cfg: Config, w: World, r: Request, now: int)
    requires cfg.rpmMs <= cfg.rpdMs && Consistent(cfg, w) && w.clock <= now && Own(cfg, r) && !r.checkOnly
    requires var tier := EffectiveTier(cfg, w.state, r);
             && !MinuteOver(cfg, tier, w.log, r, now) && !DayOver(cfg, tier, w.log, r, now)
             && !ProjectOver(cfg, tier, w.log, r, now)
    ensures var next := Apply(cfg, w, Consume(r, now));
            && Consistent(cfg, next) && next.log == w.log + [NewEntry(r, now)] && next.clock == now
            && SavedTier(cfg, next.state) == SavedTier(cfg, w.state)
  {
    VerdictByLog(cfg, w, r, now);
    StepConsistent(cfg, w, Consume(r, now));
    TierKept(cfg, w, r, now);
  }

  lemma TierKept(cfg: Config, w: World, r: Request, now: int)
    requires Consistent(cfg, w)
    ensures SavedTier(cfg, NextState(cfg, w.state, Consume(r, now))) == SavedTier(cfg, w.state)
  {
  }

  lemma StartFacts(cfg: Config)
    ensures Consistent(cfg, Start(cfg, 0)) && Start(cfg, 0).log == []
    ensures SavedTier(cfg, Start(cfg, 0).state) == cfg.initialTier
  {
  }

  lemma UsageOfTwo(a: Entry, b: Entry, project: Option<string>, lo: int)
    ensures SumAfter(Usage(project), [a, b], lo)
            == (if a.timestamp > lo && Counts(a, project) then a.count else 0)
             + (if b.timestamp > lo && Counts(b, project) then b.count else 0)
  {
    assert [a, b] == [a] + [b] && [a] == [] + [a];
    SumAfterSnoc(Usage(project), [a], b, lo);
    SumAfterSnoc(Usage(project), [], a, lo);
  }

  lemma UsageOfOne(a: Entry, project: Option<string>, lo: int)
    ensures SumAfter(Usage(project), [a], lo) == if a.timestamp > lo && Counts(a, project) then a.count else 0
  {
    assert [a] == [] + [a];
    SumAfterSnoc(Usage(project), [], a, lo);
  }

  /** One admission of weight one at time 0, and another admission one second later. */
  function TwoSteps(r: Request): seq<Op> { [Consume(Plain(1), 0), Consume(r, 1000)] }

  /** Room for both under the tier of the instance. */
  predicate RoomForBoth(cfg: Config, r: Request) {
    var limits := Limits(cfg.initialTier);
    && !Over(limits.rpm, 1, Weight(r)) && !Over(limits.rpd, 1, Weight(r))
    && (Project(r).Some? ==> !Over(ProjectLimit(cfg.initialTier, r.subCap), 0, Weight(r)))
  }

  lemma FirstStep(cfg: Config, r: Request)
    requires cfg.rpmMs <= cfg.rpdMs && RoomForBoth(cfg, r)
    ensures var w := Apply(cfg, Start(cfg, 0), Consume(Plain(1), 0));
            && Consistent(cfg, w) && w.log == [Entry(0, 1, 0, None)] && w.clock == 0
            && SavedTier(cfg, w.state) == cfg.initialTier
  {
    StartFacts(cfg);
    Admission(cfg, Start(cfg, 0), Plain(1), 0);
  }

  lemma TwoStepsRun(cfg: Config, r: Request)
    requires cfg.rpmMs <= cfg.rpdMs && RoomForBoth(cfg, r) && r.tenant.None? && r.tier.None? && !r.checkOnly
    ensures var w := Run(cfg, Start(cfg, 0), TwoSteps(r));
            && Consistent(cfg, w) && w.log == [Entry(0, 1, 0, None), NewEntry(r, 1000)] && w.clock == 1000
            && SavedTier(cfg, w.state) == cfg.initialTier
    ensures Timely(TwoSteps(r), 0)
  {
    var w := Apply(cfg, Start(cfg, 0), Consume(Plain(1), 0));
    FirstStep(cfg, r);
    UsageOfOne(Entry(0, 1, 0, None), None, 1000 - cfg.rpmMs);
    UsageOfOne(Entry(0, 1, 0, None), None, 1000 - cfg.rpdMs);
    UsageOfOne(Entry(0, 1, 0, None), Project(r), 1000 - cfg.rpmMs);
    Admission(cfg, w, r, 1000);
    var ops := TwoSteps(r);
    assert ops[1..] == [Consume(r, 1000)] && ops[1..][1..] == [];
    assert Run(cfg, Apply(cfg, w, ops[1]), []) == Apply(cfg, w, ops[1]) == Run(cfg, w, ops[1..]);
    assert Timely([], 1000) && Timely(ops[1..], 0);
  }

  /** The seconds the oldest entry of that run makes a refusal name. */
  function Seconds(cfg: Config): int { (cfg.rpmMs - 1000 + 999) / 1000 }

  /** When a client refused in that run is told to come back. */
  function Again(cfg: Config): int { 1000 + 1000 * Seconds(cfg) }

  function Return(cfg: Config, r: Request): Visit { Visit(0, TwoSteps(r), 1000, [], Again(cfg)) }

  /** What the run leaves in the log. */
  function Pair(r: Request): seq<Entry> { [Entry(0, 1, 0, None), NewEntry(r, 1000)] }

  lemma KeepsBoth(a: Entry, b: Entry, cutoff: int)
    requires a.timestamp > cutoff && b.timestamp > cutoff
    ensures Keep(SPENT, [a, b], cutoff) == [a, b]
  {
    assert [a, b] == [a] + [b] && [a] == [] + [a];
    KeepSnoc(SPENT, [], a, cutoff);
    KeepSnoc(SPENT, [a], b, cutoff);
  }

  lemma WaitForFirst(a: Entry, b: Entry, width: int, now: int)
    requires now - width < a.timestamp && now < a.timestamp + width
    ensures RetryAfter([a, b], width, now) == (a.timestamp + width - now + 999) / 1000
  {
    assert FirstInside(SPENT, [a, b], now - width) == 0;
  }

  /** What the run sets up: it can happen, and a refusal would name the time until the first entry leaves. */
  predicate Trying(cfg: Config, r: Request) {
    1000 < cfg.rpmMs <= cfg.rpdMs && RoomForBoth(cfg, r) && r.tenant.None? && r.tier.None? && !r.checkOnly
  }

  lemma ReturnIsPossible(cfg: Config, r: Request)
    requires Trying(cfg, r)
    ensures Possible(cfg, Return(cfg, r))
    ensures RetryAfter(Found(cfg, Before(cfg, Return(cfg, r)).state, 1000).entries, cfg.rpmMs, 1000) == Seconds(cfg)
  {
    TwoStepsRun(cfg, r);
    FoundBoth(cfg, r);
    WaitForFirst(Entry(0, 1, 0, None), NewEntry(r, 1000), cfg.rpmMs, 1000);
    assert After(cfg, Return(cfg, r)) == Before(cfg, Return(cfg, r));
  }

  lemma FoundPair(cfg: Config, w: World, a: Entry, b: Entry, now: int)
    requires Consistent(cfg, w) && w.clock <= now && w.log == [a, b]
    requires a.timestamp > now - cfg.rpdMs && b.timestamp > now - cfg.rpdMs
    ensures Found(cfg, w.state, now).entries == [a, b]
  {
    FoundIsLog(cfg, w, now);
    KeepsBoth(a, b, now - cfg.rpdMs);
  }

  lemma FoundBoth(cfg: Config, r: Request)
    requires Trying(cfg, r)
    ensures Found(cfg, Before(cfg, Return(cfg, r)).state, 1000).entries == [Entry(0, 1, 0, None), NewEntry(r, 1000)]
  {
    TwoStepsRun(cfg, r);
    FoundPair(cfg, Before(cfg, Return(cfg, r)), Entry(0, 1, 0, None), NewEntry(r, 1000), 1000);
  }

  /** When the client comes back as told, only the second entry is left in the minute window. */
  lemma UseOfTwo(cfg: Config, r: Request, project: Option<string>)
    requires 1000 < cfg.rpmMs <= cfg.rpdMs
    ensures var second := if Counts(NewEntry(r, 1000), project) then Weight(r) else 0;
            && MinuteUse(cfg, Pair(r), project, 1000) == second + (if project.None? then 1 else 0)
            && MinuteUse(cfg, Pair(r), project, Again(cfg)) == second
            && DayUse(cfg, Pair(r), 1000) == Weight(r) + 1
  {
    var a, b := Entry(0, 1, 0, None), NewEntry(r, 1000);
    UsageOfTwo(a, b, project, 1000 - cfg.rpmMs);
    UsageOfTwo(a, b, project, Again(cfg) - cfg.rpmMs);
    UsageOfTwo(a, b, None, 1000 - cfg.rpdMs);
  }

  /** The client is refused for the same reason again, exactly when it was told to come back. */
  predicate RefusedTwice(cfg: Config, v: Visit, r: Request, verdict: Verdict) {
    && Possible(cfg, v) && First(cfg, v, r).verdict == verdict
    && First(cfg, v, r).retryAfterSeconds.Some? && v.t == v.now + 1000 * First(cfg, v, r).retryAfterSeconds.value
    && Second(cfg, v, r).verdict == verdict
  }

  /** The limit the log says is the first to be exceeded. */
  predicate FirstOver(cfg: Config, log: seq<Entry>, r: Request, verdict: Verdict, now: int) {
    var tier := cfg.initialTier;
    && (verdict.UserExhausted? || verdict.SubCapExceeded?) && StillOver(cfg, tier, log, r, verdict, now)
    && (verdict.SubCapExceeded? ==> !MinuteOver(cfg, tier, log, r, now) && !DayOver(cfg, tier, log, r, now))
  }

  lemma LogRefusesTwice(cfg: Config, earlier: Request, r: Request, verdict: Verdict)
    requires Trying(cfg, earlier) && r.tenant.None? && r.tier.None?
    requires FirstOver(cfg, Pair(earlier), r, verdict, 1000)
    requires StillOver(cfg, cfg.initialTier, Pair(earlier), r, verdict, Again(cfg))
    ensures RefusedTwice(cfg, Return(cfg, earlier), r, verdict)
  {
    var v := Return(cfg, earlier);
    TwoStepsRun(cfg, earlier);
    ReturnIsPossible(cfg, earlier);
    VerdictByLog(cfg, Before(cfg, v), r, 1000);
    RetryNamed(cfg, Before(cfg, v).state, r, 1000);
    RefusalRecurs(cfg, v, r);
  }

  /** The operation leaves the tenant at the tier it started with. */
  predicate AtOneTier(cfg: Config, op: Op) {
    !op.SetTier? && (op.Consume? && op.request.tier.Some? ==> op.request.tier.value == cfg.initialTier)
  }

  predicate OneTier(cfg: Config, v: Visit, r: Request) {
    r.tier.None? && forall i | 0 <= i < |v.ops| :: AtOneTier(cfg, v.ops[i])
  }

  lemma StepsAtOneTier(cfg: Config, earlier: Request, r: Request)
    requires earlier.tier.None? && r.tier.None?
    ensures OneTier(cfg, Return(cfg, earlier), r)
  {
  }

  // ----- requests that do not fit at all

  const FROM_EMPTY := Visit(0, [], 0, [], 60000)

  lemma NoUse(cfg: Config, project: Option<string>, now: int)
    ensures MinuteUse(cfg, [], project, now) == 0 && DayUse(cfg, [], now) == 0
  {
  }

  /** A request over a minute limit even when nothing was ever admitted is told 60 seconds, and refused again. */
  lemma TooHeavyIsRefusedTwice(cfg: Config, r: Request, verdict: Verdict)
    requires cfg.rpmMs <= cfg.rpdMs && r.tenant.None? && r.tier.None? && FirstOver(cfg, [], r, verdict, 0)
    ensures OneTier(cfg, FROM_EMPTY, r) && RefusedTwice(cfg, FROM_EMPTY, r, verdict)
  {
    StartFacts(cfg);
    FoundIsLog(cfg, Start(cfg, 0), 0);
    VerdictByLog(cfg, Start(cfg, 0), r, 0);
    RetryNamed(cfg, Start(cfg, 0).state, r, 0);
    RefusalRecurs(cfg, FROM_EMPTY, r);
    NoUse(cfg, None, 60000);
    NoUse(cfg, None, 0);
    NoUse(cfg, Project(r), 60000);
    NoUse(cfg, Project(r), 0);
  }

  // ----- the minute limit

  /** A client refused for the minute limit, who waits as told, is refused for it no more. */
  predicate MinuteWaitHelped(cfg: Config, v: Visit, r: Request) {
    Possible(cfg, v) && First(cfg, v, r).verdict.UserExhausted?
    && v.t >= v.now + 1000 * First(cfg, v, r).retryAfterSeconds.value
    ==> !Second(cfg, v, r).verdict.UserExhausted?
  }

  /** So it is for requests of weight n, in all runs at the tier of the instance. */
  ghost predicate MinuteWaitAlwaysHelps(cfg: Config, n: int) {
    forall v, r | OneTier(cfg, v, r) && Weight(r) == n :: MinuteWaitHelped(cfg, v, r)
  }

  lemma {:induction false} TierStays(cfg: Config, w: World, ops: seq<Op>)
    requires Consistent(cfg, w) && Timely(ops, w.clock) && SavedTier(cfg, w.state) == cfg.initialTier
    requires forall i | 0 <= i < |ops| :: AtOneTier(cfg, ops[i])
    ensures SavedTier(cfg, Run(cfg, w, ops).state) == cfg.initialTier
    decreases |ops|
  {
    if ops != [] {
      assert AtOneTier(cfg, ops[0]);
      StepConsistent(cfg, w, ops[0]);
      TierStaysStep(cfg, w, ops[0]);
      TierStays(cfg, Apply(cfg, w, ops[0]), ops[1..]);
    }
  }

  lemma TierStaysStep(cfg: Config, w: World, op: Op)
    requires Consistent(cfg, w) && SavedTier(cfg, w.state) == cfg.initialTier && AtOneTier(cfg, op)
    ensures SavedTier(cfg, NextState(cfg, w.state, op)) == cfg.initialTier
  {
  }

  /** At one tier the minute usage never exceeds its limit. */
  lemma UseWithinTier(cfg: Config, v: Visit, limit: nat)
    requires cfg.rpmMs <= cfg.rpdMs && Possible(cfg, v) && Limits(cfg.initialTier).rpm == Some(limit)
    requires forall i | 0 <= i < |v.ops| :: AtOneTier(cfg, v.ops[i])
    ensures MinuteUse(cfg, Before(cfg, v).log, None, v.now) <= limit
  {
    var w := Before(cfg, v);
    var rpd := Limits(cfg.initialTier).rpd.value;
    forall i | 0 <= i < |v.ops|
      ensures OpWithin(v.ops[i], limit, rpd)
    {
      assert AtOneTier(cfg, v.ops[i]);
    }
    RunWithin(cfg, Start(cfg, v.clock), v.ops, limit, rpd);
    ComingBack(cfg, v);
    GuardedUse(cfg, w.log, limit, v.now);
  }

  lemma GuardedUse(cfg: Config, log: seq<Entry>, limit: nat, now: int)
    requires Counted(log) && Ordered(SPENT, log, now) && Guarded(Usage(None), log, cfg.rpmMs, limit)
    ensures MinuteUse(cfg, log, None, now) <= limit
  {
    assert Ordered(Usage(None), log, now) && NonNegative(Usage(None), log);
    GuardedNow(Usage(None), log, cfg.rpmMs, limit, now);
  }

  lemma TierOfVisit(cfg: Config, v: Visit, r: Request)
    requires Possible(cfg, v) && OneTier(cfg, v, r)
    ensures TierOf(cfg, v, r) == cfg.initialTier
  {
    assert Consistent(cfg, Start(cfg, v.clock));
    TierStays(cfg, Start(cfg, v.clock), v.ops);
  }

  /** The weight of the request alone exceeds the limit that the refusal is about. */
  predicate TooHeavy(tier: Tier, r: Request, refusal: Verdict) {
    Over(if refusal.UserExhausted? then Limits(tier).rpm else ProjectLimit(tier, r.subCap), 0, Weight(r))
  }

  /** Waiting as told takes at least a second, and so outlasts any window of at most a second. */
  lemma ShortWindowHelps(cfg: Config, v: Visit, r: Request)
    requires cfg.rpmMs <= 1000 && cfg.rpmMs <= cfg.rpdMs && Possible(cfg, v)
    requires First(cfg, v, r).verdict in {UserExhausted, SubCapExceeded}
    requires v.t >= v.now + 1000 * First(cfg, v, r).retryAfterSeconds.value
    ensures Second(cfg, v, r).verdict == First(cfg, v, r).verdict ==>
              TooHeavy(TierOf(cfg, v, r), r, First(cfg, v, r).verdict)
  {
    var w := Before(cfg, v);
    ComingBack(cfg, v);
    RetryNamed(cfg, w.state, r, v.now);
    RefusalRecurs(cfg, v, r);
    AllFreed(cfg, w, None, v.now, v.t);
    AllFreed(cfg, w, Project(r), v.now, v.t);
  }

  /**
   * The run that fails requests of any weight n from 2 up to the limit: one admission, the rest of
   * the limit a second later, and the request. When it comes back as told only the first admission
   * has left the window.
   */
  lemma RetryFailsHeavyRequests(cfg: Config, n: int, limit: int)
    requires 1000 < cfg.rpmMs <= cfg.rpdMs && Limits(cfg.initialTier).rpm == Some(limit) && 2 <= n <= limit
    ensures OneTier(cfg, Return(cfg, Plain(limit - 1)), Plain(n))
    ensures RefusedTwice(cfg, Return(cfg, Plain(limit - 1)), Plain(n), UserExhausted)
  {
    UseOfTwo(cfg, Plain(limit - 1), None);
    LogRefusesTwice(cfg, Plain(limit - 1), Plain(n), UserExhausted);
    StepsAtOneTier(cfg, Plain(limit - 1), Plain(n));
  }

  /**
   * Exactly which requests may trust the wait named for the minute limit, whatever the run: those
   * within the limit of weight one, or of any weight if the window is no longer than a second.
   */
  lemma MinuteWaitHelpsExactly(cfg: Config, n: int, limit: int)
    requires cfg.rpmMs <= cfg.rpdMs && Limits(cfg.initialTier).rpm == Some(limit) && n >= 1
    ensures MinuteWaitAlwaysHelps(cfg, n) <==> n <= limit && (n == 1 || cfg.rpmMs <= 1000)
  {
    if n > limit {
      NoUse(cfg, None, 0);
      TooHeavyIsRefusedTwice(cfg, Plain(n), UserExhausted);
      assert !MinuteWaitHelped(cfg, FROM_EMPTY, Plain(n));
    } else if n == 1 || cfg.rpmMs <= 1000 {
      forall v, r | OneTier(cfg, v, r) && Weight(r) == n
        ensures MinuteWaitHelped(cfg, v, r)
      {
        MinuteWaitHelps(cfg, v, r, limit);
      }
    } else {
      RetryFailsHeavyRequests(cfg, n, limit);
      assert !MinuteWaitHelped(cfg, Return(cfg, Plain(limit - 1)), Plain(n));
    }
  }

  lemma MinuteWaitHelps(cfg: Config, v: Visit, r: Request, limit: int)
    requires cfg.rpmMs <= cfg.rpdMs && Limits(cfg.initialTier).rpm == Some(limit) && 1 <= Weight(r) <= limit
    requires OneTier(cfg, v, r) && (Weight(r) == 1 || cfg.rpmMs <= 1000)
    ensures MinuteWaitHelped(cfg, v, r)
  {
    if Possible(cfg, v) && First(cfg, v, r).verdict.UserExhausted?
       && v.t >= v.now + 1000 * First(cfg, v, r).retryAfterSeconds.value {
      TierOfVisit(cfg, v, r);
      if cfg.rpmMs <= 1000 {
        ShortWindowHelps(cfg, v, r);
      } else {
        UseWithinTier(cfg, v, limit);
        ComingBack(cfg, v);
        VerdictByLog(cfg, Before(cfg, v), r, v.now);
        RetryHelpsSingleRequests(cfg, v, r);
      }
    }
  }

  // ----- a project's limit

  predicate ProjectWaitHelped(cfg: Config, v: Visit, r: Request) {
    Possible(cfg, v) && First(cfg, v, r).verdict.SubCapExceeded?
    && v.t >= v.now + 1000 * First(cfg, v, r).retryAfterSeconds.value
    ==> !Second(cfg, v, r).verdict.SubCapExceeded?
  }

  predicate Asks(r: Request, project: string, subCap: int, n: int) {
    r.project == Some(project) && r.subCap == Some(subCap) && Weight(r) == n
  }

  ghost predicate ProjectWaitAlwaysHelps(cfg: Config, project: string, subCap: int, n: int) {
    forall v, r | OneTier(cfg, v, r) && Asks(r, project, subCap, n) :: ProjectWaitHelped(cfg, v, r)
  }

  /**
   * The run that fails projects: an admission outside the project, then the project's usage up to
   * where the request is over its limit. The wait is taken from the first, the limit is held by the second.
   */
  lemma RetryFailsOtherProjects(cfg: Config, project: string, subCap: int, n: int, cap: int)
    requires 1000 < cfg.rpmMs <= cfg.rpdMs && project != ""
    requires ProjectLimit(cfg.initialTier, Some(subCap)) == Some(cap) && 1 <= n <= cap
    requires var limit := Limits(cfg.initialTier).rpm; limit.Some? ==> limit.value > cap + 1
    ensures OneTier(cfg, Return(cfg, OfProject(project, subCap, cap + 1 - n)), OfProject(project, subCap, n))
    ensures RefusedTwice(cfg, Return(cfg, OfProject(project, subCap, cap + 1 - n)), OfProject(project, subCap, n),
                         SubCapExceeded)
  {
    var earlier, r := OfProject(project, subCap, cap + 1 - n), OfProject(project, subCap, n);
    ProjectHoldsOn(cfg, project, subCap, n, cap);
    LogRefusesTwice(cfg, earlier, r, SubCapExceeded);
    StepsAtOneTier(cfg, earlier, r);
  }

  lemma ProjectHoldsOn(cfg: Config, project: string, subCap: int, n: int, cap: int)
    requires 1000 < cfg.rpmMs <= cfg.rpdMs && project != ""
    requires ProjectLimit(cfg.initialTier, Some(subCap)) == Some(cap) && 1 <= n <= cap
    requires var limit := Limits(cfg.initialTier).rpm; limit.Some? ==> limit.value > cap + 1
    ensures var earlier, r := OfProject(project, subCap, cap + 1 - n), OfProject(project, subCap, n);
            && Trying(cfg, earlier) && FirstOver(cfg, Pair(earlier), r, SubCapExceeded, 1000)
            && StillOver(cfg, cfg.initialTier, Pair(earlier), r, SubCapExceeded, Again(cfg))
  {
    var earlier := OfProject(project, subCap, cap + 1 - n);
    UseOfTwo(cfg, earlier, None);
    UseOfTwo(cfg, earlier, Some(project));
    assert Counts(NewEntry(earlier, 1000), Some(project)) && Counts(NewEntry(earlier, 1000), None);
  }

  lemma ProjectUseAtMost(cfg: Config, log: seq<Entry>, project: Option<string>, now: int)
    requires Counted(log)
    ensures MinuteUse(cfg, log, project, now) <= MinuteUse(cfg, log, None, now)
    decreases |log|
  {
    if log != [] {
      ProjectUseAtMost(cfg, log[..|log| - 1], project, now);
    }
  }

  /** Where the tenant's limit is at most one above the project's, only the project's entries can be in the way. */
  lemma TightTenantHelps(cfg: Config, v: Visit, r: Request, tier: Tier, limit: int, cap: int)
    requires cfg.rpmMs <= cfg.rpdMs && Possible(cfg, v) && First(cfg, v, r).verdict.SubCapExceeded?
    requires v.t >= v.now + 1000 * First(cfg, v, r).retryAfterSeconds.value
    requires Limits(tier).rpm == Some(limit) && ProjectLimit(tier, r.subCap) == Some(cap)
    requires limit <= cap + 1 && Weight(r) <= cap
    ensures TierOf(cfg, v, r) == tier ==> !Second(cfg, v, r).verdict.SubCapExceeded?
  {
    var w := Before(cfg, v);
    ComingBack(cfg, v);
    VerdictByLog(cfg, w, r, v.now);
    RetryNamed(cfg, w.state, r, v.now);
    RefusalRecurs(cfg, v, r);
    ProjectUseAtMost(cfg, w.log, Project(r), v.now);
    ProjectUseAtMost(cfg, w.log, Project(r), v.t);
    LateLogDrops(cfg, w, Found(cfg, w.state, v.now).entries, v.now, v.t);
  }

  /** A project's request that even an empty tenant has no room for is never refused for the project's limit. */
  lemma NeverForProject(cfg: Config, v: Visit, r: Request, limit: int)
    requires cfg.rpmMs <= cfg.rpdMs && OneTier(cfg, v, r) && Possible(cfg, v)
    requires Limits(cfg.initialTier).rpm == Some(limit) && Weight(r) > limit
    ensures !First(cfg, v, r).verdict.SubCapExceeded?
  {
    var w := Before(cfg, v);
    ComingBack(cfg, v);
    TierOfVisit(cfg, v, r);
    UseShrinks(cfg, w.log, None, v.now, v.now);
    if Own(cfg, r) {
      VerdictByLog(cfg, w, r, v.now);
    }
  }

  /** A project's request that its own limit has no room for, where the tenant's has. */
  lemma ProjectTooHeavy(cfg: Config, project: string, subCap: int, n: int, cap: int)
    requires project != "" && ProjectLimit(cfg.initialTier, Some(subCap)) == Some(cap) && n >= 1 && n > cap
    requires var limit := Limits(cfg.initialTier).rpm; limit.Some? ==> n <= limit.value
    ensures FirstOver(cfg, [], OfProject(project, subCap, n), SubCapExceeded, 0)
  {
    NoUse(cfg, None, 0);
    NoUse(cfg, Some(project), 0);
  }

  /** Where the wait for a project's limit can be trusted. */
  predicate ProjectTrusts(cfg: Config, n: int, cap: int) {
    var limit := Limits(cfg.initialTier).rpm;
    if n <= cap then cfg.rpmMs <= 1000 || (limit.Some? && limit.value <= cap + 1)
    else limit.Some? && limit.value < n
  }

  /**
   * Exactly which requests may trust the wait named for a project's limit, whatever the run. Within
   * the limit: those at a tier whose own limit leaves at most one beside the project's, or if the
   * window is no longer than a second; their weight plays no part. Over the limit: only those that
   * are never told, because they exceed the tier's limit too.
   */
  lemma ProjectWaitHelpsExactly(cfg: Config, project: string, subCap: int, n: int, cap: int)
    requires cfg.rpmMs <= cfg.rpdMs && project != "" && n >= 1
    requires ProjectLimit(cfg.initialTier, Some(subCap)) == Some(cap)
    ensures ProjectWaitAlwaysHelps(cfg, project, subCap, n) <==> ProjectTrusts(cfg, n, cap)
  {
    if ProjectTrusts(cfg, n, cap) {
      forall v, r | OneTier(cfg, v, r) && Asks(r, project, subCap, n)
        ensures ProjectWaitHelped(cfg, v, r)
      {
        if n <= cap {
          ProjectWaitHelps(cfg, v, r, cap);
        } else if Possible(cfg, v) {
          NeverForProject(cfg, v, r, Limits(cfg.initialTier).rpm.value);
        }
      }
    } else {
      ProjectWaitFails(cfg, project, subCap, n, cap);
    }
  }

  lemma ProjectWaitFails(cfg: Config, project: string, subCap: int, n: int, cap: int)
    requires cfg.rpmMs <= cfg.rpdMs && project != "" && n >= 1 && !ProjectTrusts(cfg, n, cap)
    requires ProjectLimit(cfg.initialTier, Some(subCap)) == Some(cap)
    ensures !ProjectWaitAlwaysHelps(cfg, project, subCap, n)
  {
    var r := OfProject(project, subCap, n);
    assert Asks(r, project, subCap, n);
    if n <= cap {
      RetryFailsOtherProjects(cfg, project, subCap, n, cap);
      assert !ProjectWaitHelped(cfg, Return(cfg, OfProject(project, subCap, cap + 1 - n)), r);
    } else {
      ProjectTooHeavy(cfg, project, subCap, n, cap);
      TooHeavyIsRefusedTwice(cfg, r, SubCapExceeded);
      assert !ProjectWaitHelped(cfg, FROM_EMPTY, r);
    }
  }

  lemma ProjectWaitHelps(cfg: Config, v: Visit, r: Request, cap: int)
    requires cfg.rpmMs <= cfg.rpdMs && OneTier(cfg, v, r)
    requires ProjectLimit(cfg.initialTier, r.subCap) == Some(cap) && Weight(r) <= cap
    requires cfg.rpmMs <= 1000 || (Limits(cfg.initialTier).rpm.Some? && Limits(cfg.initialTier).rpm.value <= cap + 1)
    ensures ProjectWaitHelped(cfg, v, r)
  {
    if Possible(cfg, v) && First(cfg, v, r).verdict.SubCapExceeded?
       && v.t >= v.now + 1000 * First(cfg, v, r).retryAfterSeconds.value {
      TierOfVisit(cfg, v, r);
      if cfg.rpmMs <= 1000 {
        ShortWindowHelps(cfg, v, r);
      } else {
        TightTenantHelps(cfg, v, r, cfg.initialTier, Limits(cfg.initialTier).rpm.value, cap);
      }
    }
  }

  // ----- the daily limit

  function Product(a: nat, k: nat): nat { if k == 0 then 0 else Product(a, k - 1) + a }

  lemma {:induction false} ProductIs(a: nat, k: nat)
    ensures Product(a, k) == a * k
  {
    if k > 0 {
      ProductIs(a, k - 1);
      assert a * k == a * (k - 1) + a;
    }
  }

  /** Admissions of the whole minute limit, one a minute, the i-th to the (k - 1)-th. */
  function Steady(weight: nat, i: nat, k: nat): (ops: seq<Op>)
    decreases k - i
  {
    if i >= k then [] else [Consume(Plain(weight), 60000 * i)] + Steady(weight, i + 1, k)
  }

  function SteadyLog(weight: nat, k: nat): (log: seq<Entry>) {
    if k == 0 then [] else SteadyLog(weight, k - 1) + [Entry(60000 * (k - 1), weight, 0, None)]
  }

  lemma {:induction false} SteadyBefore(weight: nat, k: nat, lo: int)
    requires lo >= 60000 * (k - 1)
    ensures SumAfter(Usage(None), SteadyLog(weight, k), lo) == 0
  {
    if k > 0 {
      SteadyBefore(weight, k - 1, lo);
      SumAfterSnoc(Usage(None), SteadyLog(weight, k - 1), Entry(60000 * (k - 1), weight, 0, None), lo);
    }
  }

  lemma {:induction false} SteadyAfter(weight: nat, k: nat, lo: int)
    requires -60000 <= lo < 60000
    ensures SumAfter(Usage(None), SteadyLog(weight, k), lo) == Product(weight, if lo >= 0 && k > 0 then k - 1 else k)
  {
    if k > 0 {
      SteadyAfter(weight, k - 1, lo);
      SumAfterSnoc(Usage(None), SteadyLog(weight, k - 1), Entry(60000 * (k - 1), weight, 0, None), lo);
    }
  }

  /** The windows the object is deployed with. */
  predicate Shipped(cfg: Config) { cfg.rpmMs == 60000 && cfg.rpdMs == 86400000 }

  lemma {:induction false} SteadyWhole(weight: nat, k: nat, lo: int)
    requires lo < 0
    ensures SumAfter(Usage(None), SteadyLog(weight, k), lo) == Product(weight, k)
  {
    if k > 0 {
      SteadyWhole(weight, k - 1, lo);
      SumAfterSnoc(Usage(None), SteadyLog(weight, k - 1), Entry(60000 * (k - 1), weight, 0, None), lo);
    }
  }

  /** The world after i of the steady admissions. */
  ghost predicate SteadyWorld(cfg: Config, w: World, weight: nat, i: nat) {
    && Consistent(cfg, w) && w.log == SteadyLog(weight, i) && SavedTier(cfg, w.state) == cfg.initialTier
    && w.clock <= 60000 * (if i == 0 then 0 else i - 1)
  }

  /** The tier has room for k admissions of that weight, one a minute. */
  predicate Roomy(cfg: Config, weight: nat, k: nat) {
    && Shipped(cfg) && k <= 1000 && weight >= 1
    && !Over(Limits(cfg.initialTier).rpm, 0, weight) && !Over(Limits(cfg.initialTier).rpd, Product(weight, k), 0)
  }

  lemma SteadyStep(cfg: Config, w: World, weight: nat, i: nat, k: nat)
    requires i < k && Roomy(cfg, weight, k) && SteadyWorld(cfg, w, weight, i)
    ensures var next := Apply(cfg, w, Consume(Plain(weight), 60000 * i));
            SteadyWorld(cfg, next, weight, i + 1)
  {
    NextRoundFits(cfg, weight, i, k);
    SteadyBefore(weight, i, 60000 * i - 60000);
    SteadyWhole(weight, i, 60000 * i - 86400000);
    Admission(cfg, w, Plain(weight), 60000 * i);
  }

  lemma {:induction false} ProductGrows(a: nat, i: nat, k: nat)
    requires i <= k
    ensures Product(a, i) <= Product(a, k)
  {
    if i < k {
      ProductGrows(a, i, k - 1);
    }
  }

  lemma NextRoundFits(cfg: Config, weight: nat, i: nat, k: nat)
    requires i < k && !Over(Limits(cfg.initialTier).rpd, Product(weight, k), 0)
    ensures !Over(Limits(cfg.initialTier).rpd, Product(weight, i), weight)
  {
    ProductGrows(weight, i + 1, k);
  }

  lemma {:induction false} SteadyIsTimely(weight: nat, i: nat, k: nat, clock: int)
    requires clock <= 60000 * i
    ensures Timely(Steady(weight, i, k), clock)
    decreases k - i
  {
    if i < k {
      SteadyIsTimely(weight, i + 1, k, 60000 * i);
      assert Steady(weight, i, k)[1..] == Steady(weight, i + 1, k);
    }
  }

  lemma RunCons(cfg: Config, w: World, op: Op, rest: seq<Op>)
    ensures Run(cfg, w, [op] + rest) == Run(cfg, Apply(cfg, w, op), rest)
  {
    assert ([op] + rest)[1..] == rest;
  }

  lemma SteadyCons(cfg: Config, w: World, weight: nat, i: nat, k: nat)
    requires i < k
    ensures Run(cfg, w, Steady(weight, i, k))
            == Run(cfg, Apply(cfg, w, Consume(Plain(weight), 60000 * i)), Steady(weight, i + 1, k))
  {
    RunCons(cfg, w, Consume(Plain(weight), 60000 * i), Steady(weight, i + 1, k));
  }

  lemma {:induction false} SteadyRun(cfg: Config, w: World, weight: nat, i: nat, k: nat)
    requires i <= k && Roomy(cfg, weight, k) && SteadyWorld(cfg, w, weight, i)
    ensures SteadyWorld(cfg, Run(cfg, w, Steady(weight, i, k)), weight, k)
    decreases k - i
  {
    if i < k {
      var next := Apply(cfg, w, Consume(Plain(weight), 60000 * i));
      SteadyStep(cfg, w, weight, i, k);
      SteadyRun(cfg, next, weight, i + 1, k);
      SteadyCons(cfg, w, weight, i, k);
      assert Run(cfg, w, Steady(weight, i, k)) == Run(cfg, next, Steady(weight, i + 1, k));
    } else {
      assert Run(cfg, w, Steady(weight, i, k)) == w;
    }
  }

  /** How often the whole minute limit fits into the daily limit. */
  function Rounds(tier: Tier): (k: nat)
    requires Limits(tier).rpm.Some? && Limits(tier).rpm.value >= 1
  {
    Limits(tier).rpd.value / Limits(tier).rpm.value
  }

  /** A client that is refused half a second before the first admission is a day old. */
  function EarlyBird(cfg: Config): Visit
    requires Limits(cfg.initialTier).rpm.Some? && Limits(cfg.initialTier).rpm.value >= 1
  {
    Visit(0, Steady(Limits(cfg.initialTier).rpm.value, 0, Rounds(cfg.initialTier)), 86399500, [], 86400000)
  }

  lemma EarlyBirdRun(cfg: Config)
    requires Shipped(cfg) && Limits(cfg.initialTier).rpm.Some? && Limits(cfg.initialTier).rpm.value >= 1
    ensures Possible(cfg, EarlyBird(cfg))
    ensures var w := Before(cfg, EarlyBird(cfg));
            && w.log == SteadyLog(Limits(cfg.initialTier).rpm.value, Rounds(cfg.initialTier))
            && SavedTier(cfg, w.state) == cfg.initialTier && Consistent(cfg, w) && w.clock <= 86399500
  {
    var limit, k := Limits(cfg.initialTier).rpm.value, Rounds(cfg.initialTier);
    RoundsFit(cfg.initialTier);
    StartFacts(cfg);
    SteadyRun(cfg, Start(cfg, 0), limit, 0, k);
    SteadyIsTimely(limit, 0, k, 0);
    assert After(cfg, EarlyBird(cfg)) == Before(cfg, EarlyBird(cfg));
  }

  lemma TierRange(tier: Tier)
    requires Limits(tier).rpm.Some? && Limits(tier).rpm.value >= 1
    ensures var limits := Limits(tier);
            limits.rpd.Some? && limits.rpm.value <= limits.rpd.value <= 1000 * limits.rpm.value
  {
  }

  lemma QuotientBounds(n: int, e: int)
    requires 1 <= e <= n <= 1000 * e
    ensures 1 <= n / e <= 1000 && e * (n / e) <= n < e * (n / e) + e
  {
    var q := n / e;
    assert n == e * q + n % e;
    assert q >= 1001 ==> e * q >= e * 1001;
    assert q <= 0 ==> e * q <= 0;
  }

  lemma RoundsFit(tier: Tier)
    requires Limits(tier).rpm.Some? && Limits(tier).rpm.value >= 1
    ensures 1 <= Rounds(tier) <= 1000
    ensures var limit := Limits(tier).rpm.value;
            Product(limit, Rounds(tier)) <= Limits(tier).rpd.value < Product(limit, Rounds(tier)) + limit
  {
    TierRange(tier);
    QuotientBounds(Limits(tier).rpd.value, Limits(tier).rpm.value);
    ProductIs(Limits(tier).rpm.value, Rounds(tier));
  }

  lemma SteadyMinute(cfg: Config, weight: nat, k: nat, now: int)
    requires Shipped(cfg) && now >= 60000 * k
    ensures MinuteUse(cfg, SteadyLog(weight, k), None, now) == 0
  {
    SteadyBefore(weight, k, now - 60000);
  }

  lemma SteadyDay(cfg: Config, weight: nat, k: nat)
    requires Shipped(cfg) && k >= 1
    ensures DayUse(cfg, SteadyLog(weight, k), 86399500) == Product(weight, k)
    ensures DayUse(cfg, SteadyLog(weight, k), 86400000) + weight == Product(weight, k)
  {
    SteadyAfter(weight, k, 86399500 - 86400000);
    SteadyAfter(weight, k, 86400000 - 86400000);
  }

  /** By the log: over the daily limit alone, and half a second later over none. */
  lemma EarlyBirdUse(cfg: Config)
    requires Shipped(cfg) && Limits(cfg.initialTier).rpm.Some? && Limits(cfg.initialTier).rpm.value >= 1
    ensures var limit, k := Limits(cfg.initialTier).rpm.value, Rounds(cfg.initialTier);
            var log, r := SteadyLog(limit, k), Plain(limit);
            && !MinuteOver(cfg, cfg.initialTier, log, r, 86399500) && DayOver(cfg, cfg.initialTier, log, r, 86399500)
            && !MinuteOver(cfg, cfg.initialTier, log, r, 86400000) && !DayOver(cfg, cfg.initialTier, log, r, 86400000)
  {
    var limit, k := Limits(cfg.initialTier).rpm.value, Rounds(cfg.initialTier);
    TierRange(cfg.initialTier);
    RoundsFit(cfg.initialTier);
    SteadyMinute(cfg, limit, k, 86399500);
    SteadyMinute(cfg, limit, k, 86400000);
    SteadyDay(cfg, limit, k);
  }

  lemma EarlyBirdVerdicts(cfg: Config, w: World, r: Request)
    requires Shipped(cfg) && Consistent(cfg, w) && w.clock <= 86399500 && SavedTier(cfg, w.state) == cfg.initialTier
    requires r.tenant.None? && r.tier.None? && r.project.None? && !r.checkOnly
    requires !MinuteOver(cfg, cfg.initialTier, w.log, r, 86399500) && DayOver(cfg, cfg.initialTier, w.log, r, 86399500)
    requires !MinuteOver(cfg, cfg.initialTier, w.log, r, 86400000) && !DayOver(cfg, cfg.initialTier, w.log, r, 86400000)
    ensures var d := ConsumeDecision(cfg, w.state, r, 86399500);
            d.verdict.UserDailyExhausted? && d.retryAfterSeconds == Some(86400)
    ensures ConsumeDecision(cfg, w.state, r, 86400000).verdict.Admitted?
  {
    VerdictByLog(cfg, w, r, 86399500);
    VerdictByLog(cfg, w, r, 86400000);
    DailyWaitNamed(cfg, w.state, r, 86399500);
  }

  /**
   * The daily wait can be far too long: at every tier with a minute limit of at least one there is a
   * run that ends in a refusal naming a whole day, while the same request is admitted half a second later.
   */
  lemma DayWaitCanBeTooLong(cfg: Config)
    requires Shipped(cfg) && Limits(cfg.initialTier).rpm.Some? && Limits(cfg.initialTier).rpm.value >= 1
    ensures var v, r := EarlyBird(cfg), Plain(Limits(cfg.initialTier).rpm.value);
            && Possible(cfg, v) && v.t == v.now + 500
            && First(cfg, v, r).verdict.UserDailyExhausted? && First(cfg, v, r).retryAfterSeconds == Some(86400)
            && Second(cfg, v, r).verdict.Admitted?
  {
    var v, r := EarlyBird(cfg), Plain(Limits(cfg.initialTier).rpm.value);
    EarlyBirdRun(cfg);
    EarlyBirdUse(cfg);
    EarlyBirdVerdicts(cfg, Before(cfg, v), r);
    assert After(cfg, v) == Before(cfg, v);
  }
}
