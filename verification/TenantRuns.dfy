/** Whole runs of the tenant quota object against a log of every admission since the last reset. */
module TenantRuns {
  import opened Text
  import opened Windows
  import opened Debt
  import opened TenantQuota

  datatype Op =
    | Consume(request: Request, now: int)
    | SetTier(tier: Tier, now: int)
    | AccrueDebt(weight: int, now: int)
    | DecrementDebt(weight: int, now: int)
    | Alarm(now: int)
    | Reset(now: int)
    | Clear(now: int)
    | Restart(now: int)

  datatype World = World(state: State, log: seq<Entry>, clock: int)

  function NextState(cfg: Config, s: State, op: Op): State {
    match op
    case Consume(r, now) => ConsumeStep(cfg, s, r, now)
    case SetTier(tier, now) => TierStep(cfg, s, tier, now)
    case AccrueDebt(w, now) => StandingStep(cfg, s, Accrue(Load(cfg, s, now).now.standing, w), now)
    case DecrementDebt(w, now) => StandingStep(cfg, s, Decrement(Load(cfg, s, now).now.standing, w), now)
    case Alarm(now) => StandingStep(cfg, s, DailyReset(Load(cfg, s, now).now.standing), now)
    case Reset(now) => ResetStep(cfg, s, now)
    case Clear(_) => ClearStep(s)
    case Restart(_) => RestartStep(cfg, s)
  }

  predicate Admits(cfg: Config, s: State, op: Op) {
    op.Consume? && ConsumeDecision(cfg, s, op.request, op.now).verdict.Admitted?
  }

  function NextLog(cfg: Config, w: World, op: Op): seq<Entry> {
    if op.Reset? then []
    else if Admits(cfg, w.state, op) then w.log + [NewEntry(op.request, op.now)]
    else w.log
  }

  function Apply(cfg: Config, w: World, op: Op): World {
    World(NextState(cfg, w.state, op), NextLog(cfg, w, op), op.now)
  }

  function Start(cfg: Config, clock: int): World {
    World(State(Fresh(cfg), false, None), [], clock)
  }

  function Run(cfg: Config, w: World, ops: seq<Op>): World
    decreases |ops|
  {
    if ops == [] then w else Run(cfg, Apply(cfg, w, ops[0]), ops[1..])
  }

  predicate Timely(ops: seq<Op>, clock: int)
    decreases |ops|
  {
    ops == [] || (clock <= ops[0].now && Timely(ops[1..], ops[0].now))
  }

  // ----- what a copy must say about the log

  /** Entries and log hold the same admissions after `lo`. */
  predicate SameAfter(entries: seq<Entry>, log: seq<Entry>, lo: int) {
    Keep(SPENT, entries, lo) == Keep(SPENT, log, lo)
  }

  ghost predicate Agrees(cfg: Config, d: Saved, log: seq<Entry>, now: int) {
    && (forall lo | lo >= now - cfg.rpdMs :: SameAfter(d.entries, log, lo))
    && d.totalCost == SumAll(SPENT, log)
  }

  /** Copies of the state agree with the log; what is not loaded is what a new instance starts with. */
  ghost predicate Consistent(cfg: Config, w: World) {
    && Ordered(SPENT, w.log, w.clock)
    && (w.state.loaded ==> Agrees(cfg, w.state.now, w.log, w.clock))
    && (w.state.disk.Some? ==> Agrees(cfg, w.state.disk.value, w.log, w.clock))
    && (w.state.disk.None? ==> w.log == [] && w.state.now == Fresh(cfg))
    && (w.state.loaded && w.state.disk.Some? ==>
          w.state.disk.value.tier == w.state.now.tier && w.state.disk.value.standing == w.state.now.standing)
  }

  lemma PruneAgrees(cfg: Config, d: Saved, log: seq<Entry>, before: int, now: int)
    requires Agrees(cfg, d, log, before) && before <= now
    ensures Agrees(cfg, Prune(cfg, d, now), log, now)
  {
    forall lo | lo >= now - cfg.rpdMs
      ensures SameAfter(Prune(cfg, d, now).entries, log, lo)
    {
      KeepTwice(SPENT, d.entries, now - cfg.rpdMs, lo);
      assert SameAfter(d.entries, log, lo);
    }
  }

  lemma AgreesLater(cfg: Config, d: Saved, log: seq<Entry>, before: int, now: int)
    requires Agrees(cfg, d, log, before) && before <= now
    ensures Agrees(cfg, d, log, now)
  {
  }

  lemma AppendAgrees(cfg: Config, d: Saved, log: seq<Entry>, e: Entry, now: int)
    requires Agrees(cfg, d, log, now)
    ensures Agrees(cfg, d.(entries := d.entries + [e], totalCost := d.totalCost + e.cost), log + [e], now)
  {
    forall lo | lo >= now - cfg.rpdMs
      ensures SameAfter(d.entries + [e], log + [e], lo)
    {
      assert SameAfter(d.entries, log, lo);
      KeepSnoc(SPENT, d.entries, e, lo);
      KeepSnoc(SPENT, log, e, lo);
    }
    SumAllSnoc(SPENT, log, e);
  }

  lemma FreshAgrees(cfg: Config, now: int)
    ensures Agrees(cfg, Fresh(cfg), [], now)
  {
  }

  /** After loading at time now, the object is loaded and agrees with the log. */
  lemma LoadConsistent(cfg: Config, w: World, now: int)
    requires Consistent(cfg, w) && w.clock <= now
    ensures var l := Load(cfg, w.state, now);
            && l.loaded && l.disk == w.state.disk
            && Agrees(cfg, l.now, w.log, now)
            && (l.disk.Some? ==> l.now.tier == l.disk.value.tier && l.now.standing == l.disk.value.standing)
            && (l.disk.None? ==> l.now == Fresh(cfg))
            && Consistent(cfg, World(l, w.log, now))
  {
    var s := w.state;
    if s.loaded {
      AgreesLater(cfg, s.now, w.log, w.clock, now);
    } else if s.disk.Some? {
      PruneAgrees(cfg, s.disk.value, w.log, w.clock, now);
    } else {
      FreshAgrees(cfg, now);
    }
    if s.disk.Some? {
      AgreesLater(cfg, s.disk.value, w.log, w.clock, now);
    }
  }

  /** Saving a loaded object that agrees with a log leaves everything consistent with it. */
  lemma SaveConsistent(cfg: Config, s: State, log: seq<Entry>, now: int)
    requires s.loaded && Agrees(cfg, s.now, log, now) && Ordered(SPENT, log, now)
    ensures Consistent(cfg, World(Save(cfg, s, now), log, now))
  {
    PruneAgrees(cfg, s.now, log, now, now);
  }

  lemma ConsumeConsistent(cfg: Config, w: World, r: Request, now: int)
    requires Consistent(cfg, w) && w.clock <= now
    ensures Consistent(cfg, Apply(cfg, w, Consume(r, now)))
  {
    if Foreign(cfg, r) {
      ForwardConsistent(cfg, w, now);
    } else {
      ReadyConsistent(cfg, w, now);
      var ready := Ready(cfg, w.state, now);
      if Admits(cfg, w.state, Consume(r, now)) {
        AddedConsistent(cfg, ready, w.log, r, now);
      }
    }
  }

  lemma ReadyConsistent(cfg: Config, w: World, now: int)
    requires Consistent(cfg, w) && w.clock <= now
    ensures var ready := Ready(cfg, w.state, now);
            ready.loaded && Agrees(cfg, ready.now, w.log, now) && Consistent(cfg, World(ready, w.log, now))
  {
    LoadConsistent(cfg, w, now);
    var l := Load(cfg, w.state, now);
    PruneAgrees(cfg, l.now, w.log, now, now);
  }

  lemma AddedConsistent(cfg: Config, ready: State, log: seq<Entry>, r: Request, now: int)
    requires ready.loaded && Agrees(cfg, ready.now, log, now) && Ordered(SPENT, log, now)
    ensures Consistent(cfg, World(Save(cfg, Added(ready, r, now), now), log + [NewEntry(r, now)], now))
  {
    var e := NewEntry(r, now);
    AppendAgrees(cfg, ready.now, log, e, now);
    assert Ordered(SPENT, log + [e], now);
    SaveConsistent(cfg, Added(ready, r, now), log + [e], now);
  }

  lemma ForwardConsistent(cfg: Config, w: World, now: int)
    requires Consistent(cfg, w) && w.clock <= now
    ensures Consistent(cfg, w.(clock := now))
  {
  }

  lemma StepConsistent(cfg: Config, w: World, op: Op)
    requires Consistent(cfg, w) && w.clock <= op.now
    ensures Consistent(cfg, Apply(cfg, w, op))
  {
    if op.Consume? {
      ConsumeConsistent(cfg, w, op.request, op.now);
    } else if op.Clear? || op.Restart? {
      ForwardConsistent(cfg, w, op.now);
    } else {
      LoadConsistent(cfg, w, op.now);
      var l := Load(cfg, w.state, op.now);
      match op
      case SetTier(tier, now) => SaveConsistent(cfg, l.(now := l.now.(tier := tier)), w.log, now);
      case AccrueDebt(x, now) =>
        SaveConsistent(cfg, l.(now := l.now.(standing := Accrue(l.now.standing, x))), w.log, now);
      case DecrementDebt(x, now) =>
        SaveConsistent(cfg, l.(now := l.now.(standing := Decrement(l.now.standing, x))), w.log, now);
      case Alarm(now) =>
        SaveConsistent(cfg, l.(now := l.now.(standing := DailyReset(l.now.standing))), w.log, now);
      case Reset(now) =>
        FreshAgrees(cfg, now);
        SaveConsistent(cfg, l.(now := l.now.(entries := [], totalCost := 0)), [], now);
    }
  }

  lemma {:induction false} RunConsistent(cfg: Config, w: World, ops: seq<Op>)
    requires Consistent(cfg, w) && Timely(ops, w.clock)
    ensures Consistent(cfg, Run(cfg, w, ops))
    decreases |ops|
  {
    if ops != [] {
      StepConsistent(cfg, w, ops[0]);
      RunConsistent(cfg, Apply(cfg, w, ops[0]), ops[1..]);
    }
  }

  // ----- evictions lose nothing

  /** What the next request would find. */
  function Found(cfg: Config, s: State, now: int): Saved { Ready(cfg, s, now).now }

  lemma FoundIsLog(cfg: Config, w: World, now: int)
    requires Consistent(cfg, w) && w.clock <= now
    ensures Found(cfg, w.state, now).entries == Keep(SPENT, w.log, now - cfg.rpdMs)
    ensures Found(cfg, w.state, now).totalCost == SumAll(SPENT, w.log)
    ensures var saved := if w.state.disk.Some? then w.state.disk.value else Fresh(cfg);
            Found(cfg, w.state, now).tier == saved.tier && Found(cfg, w.state, now).standing == saved.standing
  {
    LoadConsistent(cfg, w, now);
    assert SameAfter(Load(cfg, w.state, now).now.entries, w.log, now - cfg.rpdMs);
  }

  /**
   * In every reachable state, clearing the cache or restarting the object changes nothing a later
   * request can find: tier, admissions within a day, total cost, debt and trust.
   */
  lemma EvictionLosesNothing(cfg: Config, clock: int, ops: seq<Op>, now: int)
    requires Timely(ops, clock) && Run(cfg, Start(cfg, clock), ops).clock <= now
    ensures var s := Run(cfg, Start(cfg, clock), ops).state;
            && Found(cfg, ClearStep(s), now) == Found(cfg, s, now)
            && Found(cfg, RestartStep(cfg, s), now) == Found(cfg, s, now)
  {
    var w := Run(cfg, Start(cfg, clock), ops);
    RunConsistent(cfg, Start(cfg, clock), ops);
    StepConsistent(cfg, w, Clear(w.clock));
    StepConsistent(cfg, w, Restart(w.clock));
    FoundIsLog(cfg, w, now);
    FoundIsLog(cfg, Apply(cfg, w, Clear(w.clock)), now);
    FoundIsLog(cfg, Apply(cfg, w, Restart(w.clock)), now);
  }

  // ----- limits over every window

  /** The usage a request is judged on is the logged usage. */
  lemma UsageIsLogged(cfg: Config, w: World, project: Option<string>, now: int, lo: int)
    requires Consistent(cfg, w) && w.clock <= now && now - cfg.rpdMs <= lo
    ensures SumAfter(Usage(project), Found(cfg, w.state, now).entries, lo) == SumAfter(Usage(project), w.log, lo)
  {
    FoundIsLog(cfg, w, now);
    KeepSums(Usage(project), SPENT, w.log, now - cfg.rpdMs, lo);
  }

  function SavedTier(cfg: Config, s: State): Tier {
    if s.disk.Some? then s.disk.value.tier else cfg.initialTier
  }

  function EffectiveTier(cfg: Config, s: State, r: Request): Tier {
    if r.tier.Some? then r.tier.value else SavedTier(cfg, s)
  }

  function MinuteUse(cfg: Config, entries: seq<Entry>, project: Option<string>, now: int): int {
    SumAfter(Usage(project), entries, now - cfg.rpmMs)
  }

  function DayUse(cfg: Config, entries: seq<Entry>, now: int): int {
    SumAfter(Usage(None), entries, now - cfg.rpdMs)
  }

  /** Whether a request of a tenant of that tier is over the minute limit, the daily one, its project's. */
  predicate MinuteOver(cfg: Config, tier: Tier, entries: seq<Entry>, r: Request, now: int) {
    Over(Limits(tier).rpm, MinuteUse(cfg, entries, None, now), Weight(r))
  }

  predicate DayOver(cfg: Config, tier: Tier, entries: seq<Entry>, r: Request, now: int) {
    Over(Limits(tier).rpd, DayUse(cfg, entries, now), Weight(r))
  }

  predicate ProjectOver(cfg: Config, tier: Tier, entries: seq<Entry>, r: Request, now: int) {
    Project(r).Some? && Over(ProjectLimit(tier, r.subCap), MinuteUse(cfg, entries, Project(r), now), Weight(r))
  }

  lemma VerdictTold(cfg: Config, tier: Tier, entries: seq<Entry>, r: Request, now: int)
    ensures var d := Evaluate(cfg, tier, entries, r, now);
            var effective := if r.tier.Some? then r.tier.value else tier;
            var minute, day := MinuteOver(cfg, effective, entries, r, now), DayOver(cfg, effective, entries, r, now);
            var sub := ProjectOver(cfg, effective, entries, r, now);
            && (d.verdict.UserExhausted? <==> minute)
            && (d.verdict.UserDailyExhausted? <==> !minute && day)
            && (d.verdict.SubCapExceeded? <==> !minute && !day && sub)
            && (d.verdict.Admitted? <==> !minute && !day && !sub && !r.checkOnly)
            && !d.verdict.WrongTenant?
            && (minute || day ==>
                  d.currentRpm == MinuteUse(cfg, entries, None, now) && d.currentRpd == DayUse(cfg, entries, now))
            && (d.verdict.SubCapExceeded? ==> d.currentProjectRpm == Some(MinuteUse(cfg, entries, Project(r), now)))
  {
  }

  lemma SameUse(cfg: Config, w: World, project: Option<string>, now: int)
    requires cfg.rpmMs <= cfg.rpdMs && Consistent(cfg, w) && w.clock <= now
    ensures var entries := Found(cfg, w.state, now).entries;
            && MinuteUse(cfg, entries, project, now) == MinuteUse(cfg, w.log, project, now)
            && DayUse(cfg, entries, now) == DayUse(cfg, w.log, now)
  {
    UsageIsLogged(cfg, w, project, now, now - cfg.rpmMs);
    UsageIsLogged(cfg, w, None, now, now - cfg.rpdMs);
  }

  lemma FoundTier(cfg: Config, w: World, now: int)
    requires Consistent(cfg, w) && w.clock <= now
    ensures Found(cfg, w.state, now).tier == SavedTier(cfg, w.state)
  {
    FoundIsLog(cfg, w, now);
  }

  /** A request that names no tenant, or the object's own. */
  predicate Own(cfg: Config, r: Request) { r.tenant.Some? ==> r.tenant.value == "" || r.tenant.value == cfg.tenant }

  /** A request that names another tenant is rejected, and nothing changes. */
  lemma WrongTenantExactly(cfg: Config, w: World, r: Request, now: int)
    ensures var other := r.tenant.Some? && r.tenant.value != "" && r.tenant.value != cfg.tenant;
            && (ConsumeDecision(cfg, w.state, r, now).verdict.WrongTenant? <==> other)
            && (other ==> ConsumeDecision(cfg, w.state, r, now) == Decision(WrongTenant, 0, 0, None, None))
            && (other ==> Apply(cfg, w, Consume(r, now)) == w.(clock := now))
  {
  }

  /**
   * The verdict on a request that names no tenant or the object's own, told from the log of all
   * admissions: the first limit it is over decides, in the order minute, day, project. A refusal
   * names the logged usage.
   */
  lemma VerdictByLog(cfg: Config, w: World, r: Request, now: int)
    requires cfg.rpmMs <= cfg.rpdMs && Consistent(cfg, w) && w.clock <= now
    requires Own(cfg, r)
    ensures var d := ConsumeDecision(cfg, w.state, r, now);
            var tier := EffectiveTier(cfg, w.state, r);
            var minute, day := MinuteOver(cfg, tier, w.log, r, now), DayOver(cfg, tier, w.log, r, now);
            var sub := ProjectOver(cfg, tier, w.log, r, now);
            && (d.verdict.UserExhausted? <==> minute)
            && (d.verdict.UserDailyExhausted? <==> !minute && day)
            && (d.verdict.SubCapExceeded? <==> !minute && !day && sub)
            && (d.verdict.Admitted? <==> !minute && !day && !sub && !r.checkOnly)
            && !d.verdict.WrongTenant?
            && (minute || day ==>
                  d.currentRpm == MinuteUse(cfg, w.log, None, now) && d.currentRpd == DayUse(cfg, w.log, now))
            && (d.verdict.SubCapExceeded? ==> d.currentProjectRpm == Some(MinuteUse(cfg, w.log, Project(r), now)))
  {
    var found := Found(cfg, w.state, now);
    VerdictTold(cfg, found.tier, found.entries, r, now);
    FoundTier(cfg, w, now);
    SameUse(cfg, w, None, now);
    SameUse(cfg, w, Project(r), now);
  }

  predicate TierWithin(tier: Tier, rpmCap: int, rpdCap: int) {
    var limits := Limits(tier);
    limits.rpm.Some? && limits.rpm.value <= rpmCap && limits.rpd.Some? && limits.rpd.value <= rpdCap
  }

  /** Whatever tier an operation names lies within the caps. */
  predicate OpWithin(op: Op, rpmCap: int, rpdCap: int) {
    && (op.SetTier? ==> TierWithin(op.tier, rpmCap, rpdCap))
    && (op.Consume? && op.request.tier.Some? ==> TierWithin(op.request.tier.value, rpmCap, rpdCap))
  }

  /** Requests for the project carry its sub-cap. */
  predicate OpCarries(op: Op, project: string, subCap: int) {
    op.Consume? && op.request.project == Some(project) ==> op.request.subCap.Some? && op.request.subCap.value <= subCap
  }

  predicate StateWithin(s: State, rpmCap: int, rpdCap: int) {
    && TierWithin(s.now.tier, rpmCap, rpdCap)
    && (s.disk.Some? ==> TierWithin(s.disk.value.tier, rpmCap, rpdCap))
  }

  predicate Counted(entries: seq<Entry>) {
    forall i | 0 <= i < |entries| :: entries[i].count >= 1
  }

  predicate LogWithin(cfg: Config, log: seq<Entry>, rpmCap: int, rpdCap: int) {
    Guarded(Usage(None), log, cfg.rpmMs, rpmCap) && Guarded(Usage(None), log, cfg.rpdMs, rpdCap)
  }

  predicate SubCapped(cfg: Config, log: seq<Entry>, project: string, subCap: int) {
    Guarded(Usage(Some(project)), log, cfg.rpmMs, subCap)
  }

  lemma {:induction false} RunCounted(cfg: Config, w: World, ops: seq<Op>)
    requires Counted(w.log)
    ensures Counted(Run(cfg, w, ops).log)
    decreases |ops|
  {
    if ops != [] {
      RunCounted(cfg, Apply(cfg, w, ops[0]), ops[1..]);
    }
  }

  /** The tier a request is judged by lies within the caps. */
  lemma EffectiveTierWithin(cfg: Config, s: State, op: Op, rpmCap: int, rpdCap: int)
    requires op.Consume? && OpWithin(op, rpmCap, rpdCap)
    requires StateWithin(s, rpmCap, rpdCap) && TierWithin(cfg.initialTier, rpmCap, rpdCap)
    ensures TierWithin(EffectiveTier(cfg, s, op.request), rpmCap, rpdCap)
  {
  }

  /** An admission leaves room in terms of the log and the caps. */
  lemma AdmittedHasLoggedRoom(cfg: Config, w: World, op: Op, rpmCap: int, rpdCap: int)
    requires cfg.rpmMs <= cfg.rpdMs && Consistent(cfg, w) && w.clock <= op.now
    requires Admits(cfg, w.state, op) && OpWithin(op, rpmCap, rpdCap)
    requires StateWithin(w.state, rpmCap, rpdCap) && TierWithin(cfg.initialTier, rpmCap, rpdCap)
    ensures MinuteUse(cfg, w.log, None, op.now) + Weight(op.request) <= rpmCap
    ensures DayUse(cfg, w.log, op.now) + Weight(op.request) <= rpdCap
  {
    VerdictByLog(cfg, w, op.request, op.now);
    EffectiveTierWithin(cfg, w.state, op, rpmCap, rpdCap);
  }

  lemma AdmittedFits(cfg: Config, w: World, op: Op, rpmCap: int, rpdCap: int)
    requires cfg.rpmMs <= cfg.rpdMs && Consistent(cfg, w) && w.clock <= op.now
    requires Admits(cfg, w.state, op) && OpWithin(op, rpmCap, rpdCap)
    requires StateWithin(w.state, rpmCap, rpdCap) && TierWithin(cfg.initialTier, rpmCap, rpdCap)
    requires LogWithin(cfg, w.log, rpmCap, rpdCap)
    ensures LogWithin(cfg, w.log + [NewEntry(op.request, op.now)], rpmCap, rpdCap)
  {
    AdmittedHasLoggedRoom(cfg, w, op, rpmCap, rpdCap);
    EntryFits(cfg, w.log, NewEntry(op.request, op.now), rpmCap, rpdCap);
  }

  lemma EntryFits(cfg: Config, log: seq<Entry>, e: Entry, rpmCap: int, rpdCap: int)
    requires LogWithin(cfg, log, rpmCap, rpdCap)
    requires MinuteUse(cfg, log, None, e.timestamp) + e.count <= rpmCap
    requires DayUse(cfg, log, e.timestamp) + e.count <= rpdCap
    ensures LogWithin(cfg, log + [e], rpmCap, rpdCap)
  {
  }

  lemma StepLogWithin(cfg: Config, w: World, op: Op, rpmCap: int, rpdCap: int)
    requires cfg.rpmMs <= cfg.rpdMs && Consistent(cfg, w) && w.clock <= op.now && OpWithin(op, rpmCap, rpdCap)
    requires StateWithin(w.state, rpmCap, rpdCap) && TierWithin(cfg.initialTier, rpmCap, rpdCap)
    requires LogWithin(cfg, w.log, rpmCap, rpdCap)
    ensures LogWithin(cfg, NextLog(cfg, w, op), rpmCap, rpdCap)
  {
    if Admits(cfg, w.state, op) {
      AdmittedFits(cfg, w, op, rpmCap, rpdCap);
    }
  }

  lemma {:induction false} RunWithin(cfg: Config, w: World, ops: seq<Op>, rpmCap: int, rpdCap: int)
    requires cfg.rpmMs <= cfg.rpdMs && Consistent(cfg, w) && Timely(ops, w.clock)
    requires forall i | 0 <= i < |ops| :: OpWithin(ops[i], rpmCap, rpdCap)
    requires StateWithin(w.state, rpmCap, rpdCap) && TierWithin(cfg.initialTier, rpmCap, rpdCap)
    requires LogWithin(cfg, w.log, rpmCap, rpdCap)
    ensures LogWithin(cfg, Run(cfg, w, ops).log, rpmCap, rpdCap)
    decreases |ops|
  {
    if ops != [] {
      assert OpWithin(ops[0], rpmCap, rpdCap);
      StepConsistent(cfg, w, ops[0]);
      StepLogWithin(cfg, w, ops[0], rpmCap, rpdCap);
      StepWithin(cfg, w.state, ops[0], rpmCap, rpdCap);
      RunWithin(cfg, Apply(cfg, w, ops[0]), ops[1..], rpmCap, rpdCap);
    }
  }

  lemma StepWithin(cfg: Config, s: State, op: Op, rpmCap: int, rpdCap: int)
    requires StateWithin(s, rpmCap, rpdCap) && TierWithin(cfg.initialTier, rpmCap, rpdCap)
    requires OpWithin(op, rpmCap, rpdCap)
    ensures StateWithin(NextState(cfg, s, op), rpmCap, rpdCap)
  {
  }

  lemma ProjectHasLoggedRoom(cfg: Config, w: World, op: Op, project: string, subCap: int)
    requires cfg.rpmMs <= cfg.rpdMs && Consistent(cfg, w) && w.clock <= op.now && project != ""
    requires Admits(cfg, w.state, op) && OpCarries(op, project, subCap) && op.request.project == Some(project)
    ensures MinuteUse(cfg, w.log, Some(project), op.now) + Weight(op.request) <= subCap
  {
    VerdictByLog(cfg, w, op.request, op.now);
  }

  lemma AdmittedFitsProject(cfg: Config, w: World, op: Op, project: string, subCap: int)
    requires cfg.rpmMs <= cfg.rpdMs && Consistent(cfg, w) && w.clock <= op.now && project != ""
    requires Admits(cfg, w.state, op) && OpCarries(op, project, subCap) && SubCapped(cfg, w.log, project, subCap)
    ensures SubCapped(cfg, w.log + [NewEntry(op.request, op.now)], project, subCap)
  {
    if op.request.project == Some(project) {
      ProjectHasLoggedRoom(cfg, w, op, project, subCap);
    }
  }

  lemma {:induction false} RunSubCapped(cfg: Config, w: World, ops: seq<Op>, project: string, subCap: int)
    requires cfg.rpmMs <= cfg.rpdMs && Consistent(cfg, w) && Timely(ops, w.clock) && project != ""
    requires forall i | 0 <= i < |ops| :: OpCarries(ops[i], project, subCap)
    requires SubCapped(cfg, w.log, project, subCap)
    ensures SubCapped(cfg, Run(cfg, w, ops).log, project, subCap)
    decreases |ops|
  {
    if ops != [] {
      assert OpCarries(ops[0], project, subCap);
      StepConsistent(cfg, w, ops[0]);
      if Admits(cfg, w.state, ops[0]) {
        AdmittedFitsProject(cfg, w, ops[0], project, subCap);
      }
      RunSubCapped(cfg, Apply(cfg, w, ops[0]), ops[1..], project, subCap);
    }
  }

  /** What a run from the start leaves: an ordered log of entries that all count. */
  lemma LogShape(cfg: Config, clock: int, ops: seq<Op>)
    requires Timely(ops, clock)
    ensures var w := Run(cfg, Start(cfg, clock), ops);
            Consistent(cfg, w) && Counted(w.log) && NonNegative(Usage(None), w.log)
  {
    RunConsistent(cfg, Start(cfg, clock), ops);
    RunCounted(cfg, Start(cfg, clock), ops);
  }

  lemma WindowOfLog(log: seq<Entry>, project: Option<string>, now: int, width: int, cap: int, a: int)
    requires Counted(log) && Ordered(SPENT, log, now) && Guarded(Usage(project), log, width, cap)
    ensures SumWithin(Usage(project), log, a, a + width) <= AtLeastZero(cap)
  {
    assert forall i, j | 0 <= i < j < |log| :: SPENT.time(log[i]) <= SPENT.time(log[j]);
    EveryWindow(Usage(project), log, width, cap, a);
  }

  /**
   * Whatever the tiers, unlimited ones included: as long as its requests carry its sub-cap, a
   * project's weighted admissions since the last reset stay within it in every minute window.
   */
  lemma EveryProjectWindowWithinSubCap(cfg: Config, clock: int, ops: seq<Op>, project: string, subCap: int, a: int)
    requires cfg.rpmMs <= cfg.rpdMs && Timely(ops, clock) && project != ""
    requires forall i | 0 <= i < |ops| :: OpCarries(ops[i], project, subCap)
    ensures SumWithin(Usage(Some(project)), Run(cfg, Start(cfg, clock), ops).log, a, a + cfg.rpmMs)
            <= AtLeastZero(subCap)
  {
    var end := Run(cfg, Start(cfg, clock), ops);
    RunSubCapped(cfg, Start(cfg, clock), ops, project, subCap);
    LogShape(cfg, clock, ops);
    WindowOfLog(end.log, Some(project), end.clock, cfg.rpmMs, subCap, a);
  }

  lemma WindowsOfLog(cfg: Config, log: seq<Entry>, now: int, rpmCap: int, rpdCap: int, a: int)
    requires Counted(log) && Ordered(SPENT, log, now) && LogWithin(cfg, log, rpmCap, rpdCap)
    ensures SumWithin(Usage(None), log, a, a + cfg.rpmMs) <= AtLeastZero(rpmCap)
    ensures SumWithin(Usage(None), log, a, a + cfg.rpdMs) <= AtLeastZero(rpdCap)
  {
    WindowOfLog(log, None, now, cfg.rpmMs, rpmCap, a);
    WindowOfLog(log, None, now, cfg.rpdMs, rpdCap, a);
  }

  lemma TenantWindows(cfg: Config, clock: int, ops: seq<Op>, rpmCap: int, rpdCap: int, a: int)
    requires cfg.rpmMs <= cfg.rpdMs && Timely(ops, clock) && TierWithin(cfg.initialTier, rpmCap, rpdCap)
    requires forall i | 0 <= i < |ops| :: OpWithin(ops[i], rpmCap, rpdCap)
    ensures var log := Run(cfg, Start(cfg, clock), ops).log;
            && SumWithin(Usage(None), log, a, a + cfg.rpmMs) <= AtLeastZero(rpmCap)
            && SumWithin(Usage(None), log, a, a + cfg.rpdMs) <= AtLeastZero(rpdCap)
  {
    var end := Run(cfg, Start(cfg, clock), ops);
    RunWithin(cfg, Start(cfg, clock), ops, rpmCap, rpdCap);
    LogShape(cfg, clock, ops);
    WindowsOfLog(cfg, end.log, end.clock, rpmCap, rpdCap, a);
  }

  lemma ProjectWithinTenant(cfg: Config, clock: int, ops: seq<Op>, project: string, lo: int, hi: int)
    requires Timely(ops, clock)
    ensures var log := Run(cfg, Start(cfg, clock), ops).log;
            SumWithin(Usage(Some(project)), log, lo, hi) <= SumWithin(Usage(None), log, lo, hi)
  {
    LogShape(cfg, clock, ops);
    SumWithinAtMost(Usage(Some(project)), Usage(None), Run(cfg, Start(cfg, clock), ops).log, lo, hi);
  }

  /**
   * Hierarchical quota over whole runs: as long as every tier in play allows at most rpmCap and
   * rpdCap and the project's requests carry its sub-cap, the weighted admissions since the last
   * reset stay within rpmCap in every minute window, within rpdCap in every day window, and the
   * project's within the smaller of rpmCap and its sub-cap in every minute window, through
   * evictions, restarts, tier changes and debt operations.
   */
  lemma EveryWindowWithinQuota(cfg: Config, clock: int, ops: seq<Op>, rpmCap: int, rpdCap: int,
                               project: string, subCap: int, a: int)
    requires cfg.rpmMs <= cfg.rpdMs && Timely(ops, clock) && project != ""
    requires TierWithin(cfg.initialTier, rpmCap, rpdCap)
    requires forall i | 0 <= i < |ops| :: OpWithin(ops[i], rpmCap, rpdCap) && OpCarries(ops[i], project, subCap)
    ensures var log := Run(cfg, Start(cfg, clock), ops).log;
            && SumWithin(Usage(None), log, a, a + cfg.rpmMs) <= AtLeastZero(rpmCap)
            && SumWithin(Usage(None), log, a, a + cfg.rpdMs) <= AtLeastZero(rpdCap)
            && SumWithin(Usage(Some(project)), log, a, a + cfg.rpmMs) <= AtLeastZero(Min(rpmCap, subCap))
  {
    TenantWindows(cfg, clock, ops, rpmCap, rpdCap, a);
    EveryProjectWindowWithinSubCap(cfg, clock, ops, project, subCap, a);
    ProjectWithinTenant(cfg, clock, ops, project, a, a + cfg.rpmMs);
  }

  // ----- standing

  predicate StateSound(s: State) {
    Sound(s.now.standing) && (s.disk.Some? ==> Sound(s.disk.value.standing))
  }

  lemma StepSound(cfg: Config, s: State, op: Op)
    requires StateSound(s)
    ensures StateSound(NextState(cfg, s, op))
  {
  }

  lemma {:induction false} RunSound(cfg: Config, w: World, ops: seq<Op>)
    requires StateSound(w.state)
    ensures StateSound(Run(cfg, w, ops).state)
    decreases |ops|
  {
    if ops != [] {
      StepSound(cfg, w.state, ops[0]);
      RunSound(cfg, Apply(cfg, w, ops[0]), ops[1..]);
    }
  }

  /** In every reachable state, trust and jail status follow the streak and the debt ratio exactly. */
  lemma StandingInEveryState(cfg: Config, clock: int, ops: seq<Op>)
    ensures var s := Run(cfg, Start(cfg, clock), ops).state.now.standing;
            var jail := JailStatus(s.debt, s.ceiling);
            && (s.trusted <==> s.debtFreeDays > 30)
            && (jail == HardJail <==> s.debt > 0 && (s.contributed <= 0 || 100 * s.debt >= 101 * s.contributed))
            && (jail == SoftWarning <==>
                  s.debt > 0 && s.contributed > 0 && 51 * s.contributed <= 100 * s.debt < 101 * s.contributed)
  {
    RunSound(cfg, Start(cfg, clock), ops);
    JailExactly(Run(cfg, Start(cfg, clock), ops).state.now.standing);
  }
}
