/**
 * The tenant quota told from its operations alone: which requests were admitted, what the next one
 * is answered, and the community ledger (src/quota/tenant/tenant_do.ts, evaluator.ts, debt.ts).
 */
module TenantLedger {
  import opened Text
  import opened Windows
  import opened Debt
  import opened TenantQuota
  import opened TenantRuns

  // ----- runs by their last operation

  function Reached(cfg: Config, clock: int, ops: seq<Op>): World { Run(cfg, Start(cfg, clock), ops) }

  lemma {:induction false} RunSnoc(cfg: Config, w: World, ops: seq<Op>)
    requires ops != []
    ensures Run(cfg, w, ops) == Apply(cfg, Run(cfg, w, ops[..|ops| - 1]), ops[|ops| - 1])
    ensures Timely(ops, w.clock) ==>
              Timely(ops[..|ops| - 1], w.clock) && Run(cfg, w, ops[..|ops| - 1]).clock <= ops[|ops| - 1].now
    decreases |ops|
  {
    var n := |ops| - 1;
    if n > 0 {
      RunSnoc(cfg, Apply(cfg, w, ops[0]), ops[1..]);
      assert ops[1..][..n - 1] == ops[..n][1..];
    }
  }

  // ----- admissions

  datatype Admission = Admission(request: Request, time: int)

  /** The requests admitted since the last reset. */
  function Admissions(cfg: Config, clock: int, ops: seq<Op>): (past: seq<Admission>) {
    if ops == [] then []
    else
      var n := |ops| - 1;
      var before, op := Admissions(cfg, clock, ops[..n]), ops[n];
      if op.Reset? then []
      else if op.Consume? &&
        ConsumeDecision(cfg, Reached(cfg, clock, ops[..n]).state, op.request, op.now).verdict.Admitted?
      then before + [Admission(op.request, op.now)]
      else before
  }

  /** How many requests a request counts for. */
  function Asked(r: Request): int { if r.count.Some? && r.count.value > 0 then r.count.value else 1 }

  /** The project a request names, if it names one. */
  function Named(r: Request): Option<string> {
    if r.project.Some? && r.project.value != "" then r.project else None
  }

  /** What was admitted after `lo`, of one project or of all. */
  function UsedSince(past: seq<Admission>, project: Option<string>, lo: int): (n: int) {
    if past == [] then 0
    else
      var a := past[|past| - 1];
      UsedSince(past[..|past| - 1], project, lo)
      + (if a.time > lo && (project.None? || Named(a.request) == project) then Asked(a.request) else 0)
  }

  function Spent(past: seq<Admission>): (cost: int) {
    if past == [] then 0 else Spent(past[..|past| - 1]) + past[|past| - 1].request.cost
  }

  /** The log holds the admissions, each with its time, weight, cost and project. */
  predicate Records(log: seq<Entry>, past: seq<Admission>) {
    && |log| == |past|
    && forall i | 0 <= i < |past| ::
         log[i] == Entry(past[i].time, Asked(past[i].request), past[i].request.cost, Named(past[i].request))
  }

  lemma {:induction false} LogIsAdmissions(cfg: Config, clock: int, ops: seq<Op>)
    ensures Records(Reached(cfg, clock, ops).log, Admissions(cfg, clock, ops))
  {
    if ops != [] {
      LogIsAdmissions(cfg, clock, ops[..|ops| - 1]);
      RunSnoc(cfg, Start(cfg, clock), ops);
    }
  }

  lemma {:induction false} UsedIsSum(log: seq<Entry>, past: seq<Admission>, project: Option<string>, lo: int)
    requires Records(log, past)
    ensures SumAfter(Usage(project), log, lo) == UsedSince(past, project, lo)
    ensures SumAll(SPENT, log) == Spent(past)
  {
    if past != [] {
      var n := |past| - 1;
      UsedIsSum(log[..n], past[..n], project, lo);
    }
  }

  // ----- the next decision

  /** The tier last set. */
  function TierAfter(cfg: Config, ops: seq<Op>): (tier: Tier) {
    if ops == [] then cfg.initialTier
    else if ops[|ops| - 1].SetTier? then ops[|ops| - 1].tier
    else TierAfter(cfg, ops[..|ops| - 1])
  }

  lemma {:induction false} TierIsLastSet(cfg: Config, clock: int, ops: seq<Op>)
    requires Timely(ops, clock)
    ensures SavedTier(cfg, Reached(cfg, clock, ops).state) == TierAfter(cfg, ops)
  {
    if ops != [] {
      var n := |ops| - 1;
      RunSnoc(cfg, Start(cfg, clock), ops);
      TierIsLastSet(cfg, clock, ops[..n]);
      RunConsistent(cfg, Start(cfg, clock), ops[..n]);
      LoadConsistent(cfg, Reached(cfg, clock, ops[..n]), ops[n].now);
    }
  }

  /** Requests a minute and a day, as agreed (src/contracts/v3_types.ts:36-95). */
  function PerMinute(tier: Tier): (n: Option<int>) {
    if tier in {Admin, Ultra} then None
    else if tier.MaxTier? then Some(60)
    else if tier in {Builder, Demo} then Some(20)
    else if tier.Probationary? then Some(2)
    else Some(0)
  }

  function PerDay(tier: Tier): (n: Option<int>) {
    if tier in {Admin, Ultra} then None
    else if tier.MaxTier? then Some(10000)
    else if tier in {Builder, Demo} then Some(2000)
    else if tier.Probationary? then Some(50)
    else Some(0)
  }

  /** The tier a request is judged by: its own, if it brings one. */
  function TierOf(r: Request, tier: Tier): Tier { if r.tier.Some? then r.tier.value else tier }

  predicate Exceeds(n: int, limit: Option<int>) { limit.Some? && n > limit.value }

  /** What a request is answered at a tier, after some admissions. */
  predicate Answered(cfg: Config, tier: Tier, past: seq<Admission>, r: Request, now: int, d: Decision) {
    var n, project := Asked(r), Named(r);
    var minute, day := UsedSince(past, None, now - cfg.rpmMs), UsedSince(past, None, now - cfg.rpdMs);
    var own := UsedSince(past, project, now - cfg.rpmMs);
    var added := if d.verdict.Admitted? then n else 0;
    && d.verdict == (if Exceeds(minute + n, PerMinute(tier)) then UserExhausted
                     else if Exceeds(day + n, PerDay(tier)) then UserDailyExhausted
                     else if project.Some? && (Exceeds(own + n, PerMinute(tier)) || Exceeds(own + n, r.subCap))
                     then SubCapExceeded
                     else if r.checkOnly then WouldAdmit
                     else Admitted)
    && d.currentRpm == minute + added && d.currentRpd == day + added
    && d.currentProjectRpm == (if d.verdict in {UserExhausted, UserDailyExhausted} || project.None? then None
                               else Some(own + added))
    && (d.verdict.UserDailyExhausted? ==> d.retryAfterSeconds == Some(86400))
    && (d.retryAfterSeconds.None? <==> d.verdict in {Admitted, WouldAdmit})
  }

  lemma LimitsAreDocumented(tier: Tier)
    ensures Limits(tier) == TierLimits(PerMinute(tier), PerDay(tier))
  {
  }

  /** The usage a request is judged on is that of the admissions. */
  predicate SameUsage(cfg: Config, entries: seq<Entry>, past: seq<Admission>, project: Option<string>, now: int) {
    && MinuteUse(cfg, entries, None, now) == UsedSince(past, None, now - cfg.rpmMs)
    && DayUse(cfg, entries, now) == UsedSince(past, None, now - cfg.rpdMs)
    && MinuteUse(cfg, entries, project, now) == UsedSince(past, project, now - cfg.rpmMs)
  }

  lemma RefusedByUse(cfg: Config, tier: Tier, entries: seq<Entry>, past: seq<Admission>, r: Request, now: int)
    requires SameUsage(cfg, entries, past, Named(r), now)
    requires Evaluate(cfg, tier, entries, r, now).verdict in {UserExhausted, UserDailyExhausted}
    ensures Answered(cfg, TierOf(r, tier), past, r, now, Evaluate(cfg, tier, entries, r, now))
  {
    LimitsAreDocumented(TierOf(r, tier));
  }

  lemma EvaluatedByUse(cfg: Config, tier: Tier, entries: seq<Entry>, past: seq<Admission>, r: Request, now: int)
    requires SameUsage(cfg, entries, past, Named(r), now)
    ensures Answered(cfg, TierOf(r, tier), past, r, now, Evaluate(cfg, tier, entries, r, now))
  {
    if Evaluate(cfg, tier, entries, r, now).verdict in {UserExhausted, UserDailyExhausted} {
      RefusedByUse(cfg, tier, entries, past, r, now);
    } else {
      LimitsAreDocumented(TierOf(r, tier));
      assert Project(r) == Named(r);
    }
  }

  /**
   * After any run, a request of the tenant is answered by the admissions since the last reset, the
   * tier last set unless it brings its own, and the documented limits: see `Answered`.
   */
  lemma DecisionFollowsHistory(cfg: Config, clock: int, ops: seq<Op>, r: Request, now: int)
    requires cfg.rpmMs <= cfg.rpdMs && Timely(ops, clock) && Reached(cfg, clock, ops).clock <= now && Own(cfg, r)
    ensures Answered(cfg, TierOf(r, TierAfter(cfg, ops)), Admissions(cfg, clock, ops), r, now,
                     ConsumeDecision(cfg, Reached(cfg, clock, ops).state, r, now))
  {
    var w, past := Reached(cfg, clock, ops), Admissions(cfg, clock, ops);
    RunConsistent(cfg, Start(cfg, clock), ops);
    FoundTier(cfg, w, now);
    TierIsLastSet(cfg, clock, ops);
    LogIsAdmissions(cfg, clock, ops);
    LoggedUsage(cfg, w.log, past, Named(r), now);
    FoundUsage(cfg, w, past, Named(r), now);
    EvaluatedByUse(cfg, Found(cfg, w.state, now).tier, Found(cfg, w.state, now).entries, past, r, now);
  }

  lemma LoggedUsage(cfg: Config, log: seq<Entry>, past: seq<Admission>, project: Option<string>, now: int)
    requires Records(log, past)
    ensures SameUsage(cfg, log, past, project, now)
  {
    UsedIsSum(log, past, None, now - cfg.rpmMs);
    UsedIsSum(log, past, None, now - cfg.rpdMs);
    UsedIsSum(log, past, project, now - cfg.rpmMs);
  }

  lemma FoundUsage(cfg: Config, w: World, past: seq<Admission>, project: Option<string>, now: int)
    requires cfg.rpmMs <= cfg.rpdMs && Consistent(cfg, w) && w.clock <= now && SameUsage(cfg, w.log, past, project, now)
    ensures SameUsage(cfg, Found(cfg, w.state, now).entries, past, project, now)
  {
    SameUse(cfg, w, None, now);
    SameUse(cfg, w, project, now);
  }

  // ----- the community ledger

  /** What was contributed since the last daily reset. */
  function Contributed(ops: seq<Op>): (n: int) {
    if ops == [] || ops[|ops| - 1].Alarm? then 0
    else
      var op := ops[|ops| - 1];
      Contributed(ops[..|ops| - 1]) + (if op.DecrementDebt? then op.weight else 0)
  }

  /** What is owed: accruals add to it, contributions pay it off, and a day leaves four fifths, rounded up. */
  function Owed(ops: seq<Op>): (n: int) {
    if ops == [] then 0
    else
      var before, op := Owed(ops[..|ops| - 1]), ops[|ops| - 1];
      match op
      case AccrueDebt(weight, _) => before + weight
      case DecrementDebt(weight, _) => if weight >= before then 0 else before - weight
      case Alarm(_) => if before <= 0 then 0 else (4 * before + 4) / 5
      case _ => before
  }

  /** Daily resets in a row that found nothing owed. */
  function DebtFreeDays(ops: seq<Op>): (n: int) {
    if ops == [] then 0
    else
      var before := ops[..|ops| - 1];
      if !ops[|ops| - 1].Alarm? then DebtFreeDays(before)
      else if Owed(before) == 0 then DebtFreeDays(before) + 1
      else 0
  }

  /** The multiplier ceiling: none has been worked out before the first debt operation or daily reset. */
  function CeilingAfter(ops: seq<Op>): (c: int) {
    if ops == [] then 150
    else
      var op := ops[|ops| - 1];
      if op.AccrueDebt? || op.DecrementDebt? || op.Alarm?
      then CeilingFor(Owed(ops), Contributed(ops), DebtFreeDays(ops) > 30)
      else CeilingAfter(ops[..|ops| - 1])
  }

  /** By whole percents of what is owed to what was contributed: from 101 on, from 51 on, and below. */
  function CeilingFor(owed: int, contributed: int, trusted: bool): int {
    if owed > 0 && (contributed <= 0 || 100 * owed >= 101 * contributed) then 100
    else if owed > 0 && 100 * owed >= 51 * contributed then 150
    else if trusted then 500
    else 450
  }

  lemma CeilingExactly(owed: int, contributed: int, trusted: bool)
    ensures Ceiling(owed, contributed, trusted) == CeilingFor(owed, contributed, trusted)
  {
    if owed > 0 && contributed > 0 {
      QuotientAtLeast(owed * 100, contributed, 101);
      QuotientAtLeast(owed * 100, contributed, 51);
    } else if contributed > 0 {
      TruncatedAtMostZero(owed * 100, contributed);
    }
  }

  lemma TruncatedAtMostZero(a: int, b: int)
    requires a <= 0 && b > 0
    ensures TruncDiv(a, b) <= 0
  {
  }

  function Ledger(ops: seq<Op>): (s: Standing) {
    Standing(Owed(ops), Contributed(ops), DebtFreeDays(ops) > 30, DebtFreeDays(ops), CeilingAfter(ops))
  }

  lemma AccrualBooked(ops: seq<Op>, weight: int, now: int)
    ensures Accrue(Ledger(ops), weight) == Ledger(ops + [AccrueDebt(weight, now)])
  {
    var all := ops + [AccrueDebt(weight, now)];
    assert all[..|all| - 1] == ops;
    CeilingExactly(Owed(all), Contributed(all), DebtFreeDays(all) > 30);
  }

  lemma ContributionBooked(ops: seq<Op>, weight: int, now: int)
    ensures Decrement(Ledger(ops), weight) == Ledger(ops + [DecrementDebt(weight, now)])
  {
    var all := ops + [DecrementDebt(weight, now)];
    assert all[..|all| - 1] == ops;
    CeilingExactly(Owed(all), Contributed(all), DebtFreeDays(all) > 30);
  }

  lemma DayBooked(ops: seq<Op>, now: int)
    requires DebtFreeDays(ops) >= 0
    ensures DailyReset(Ledger(ops)) == Ledger(ops + [Alarm(now)])
  {
    var all := ops + [Alarm(now)];
    assert all[..|all| - 1] == ops;
    CeilingExactly(Owed(all), Contributed(all), DebtFreeDays(all) > 30);
  }

  lemma {:induction false} DaysNotNegative(ops: seq<Op>)
    ensures DebtFreeDays(ops) >= 0
  {
    if ops != [] {
      DaysNotNegative(ops[..|ops| - 1]);
    }
  }

  function SavedStanding(cfg: Config, s: State): Standing {
    if s.disk.Some? then s.disk.value.standing else Fresh(cfg).standing
  }

  lemma LoadedIsSaved(cfg: Config, w: World, now: int)
    requires Consistent(cfg, w) && w.clock <= now
    ensures Load(cfg, w.state, now).now.standing == SavedStanding(cfg, w.state)
  {
    LoadConsistent(cfg, w, now);
  }

  lemma OthersKeepStanding(cfg: Config, w: World, op: Op)
    requires Consistent(cfg, w) && w.clock <= op.now && !op.AccrueDebt? && !op.DecrementDebt? && !op.Alarm?
    ensures SavedStanding(cfg, NextState(cfg, w.state, op)) == SavedStanding(cfg, w.state)
  {
    LoadedIsSaved(cfg, w, op.now);
  }

  lemma OthersAreNotBooked(ops: seq<Op>, op: Op)
    requires !op.AccrueDebt? && !op.DecrementDebt? && !op.Alarm?
    ensures Ledger(ops + [op]) == Ledger(ops)
  {
    assert (ops + [op])[..|ops|] == ops;
  }

  lemma {:induction false} SavedIsLedger(cfg: Config, clock: int, ops: seq<Op>)
    requires Timely(ops, clock)
    ensures SavedStanding(cfg, Reached(cfg, clock, ops).state) == Ledger(ops)
  {
    if ops != [] {
      var n := |ops| - 1;
      RunSnoc(cfg, Start(cfg, clock), ops);
      SavedIsLedger(cfg, clock, ops[..n]);
      RunConsistent(cfg, Start(cfg, clock), ops[..n]);
      LastBooked(cfg, Reached(cfg, clock, ops[..n]), ops[..n], ops[n]);
      assert ops == ops[..n] + [ops[n]];
    }
  }

  /** One operation, on top of a state whose saved standing is the ledger's. */
  lemma LastBooked(cfg: Config, w: World, ops: seq<Op>, op: Op)
    requires Consistent(cfg, w) && w.clock <= op.now && SavedStanding(cfg, w.state) == Ledger(ops)
    ensures SavedStanding(cfg, NextState(cfg, w.state, op)) == Ledger(ops + [op])
  {
    LoadedIsSaved(cfg, w, op.now);
    if op.AccrueDebt? {
      AccrualBooked(ops, op.weight, op.now);
    } else if op.DecrementDebt? {
      ContributionBooked(ops, op.weight, op.now);
    } else if op.Alarm? {
      DaysNotNegative(ops);
      DayBooked(ops, op.now);
    } else {
      OthersKeepStanding(cfg, w, op);
      OthersAreNotBooked(ops, op);
    }
  }

  /**
   * The standing that the next request finds is the ledger of the operations: whatever evictions,
   * restarts, admissions, resets and tier changes came between the debt operations.
   */
  lemma StandingIsLedger(cfg: Config, clock: int, ops: seq<Op>, now: int)
    requires Timely(ops, clock) && Reached(cfg, clock, ops).clock <= now
    ensures Found(cfg, Reached(cfg, clock, ops).state, now).standing == Ledger(ops)
    ensures Found(cfg, Reached(cfg, clock, ops).state, now).totalCost == Spent(Admissions(cfg, clock, ops))
  {
    var w, past := Reached(cfg, clock, ops), Admissions(cfg, clock, ops);
    SavedIsLedger(cfg, clock, ops);
    RunConsistent(cfg, Start(cfg, clock), ops);
    FoundIsLog(cfg, w, now);
    LogIsAdmissions(cfg, clock, ops);
    UsedIsSum(w.log, past, None, 0);
  }
}
