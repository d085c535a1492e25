/** Whole runs of the rate limiter against a log of every increment since the last reset. */
module RateLimiterRuns {
  import opened Text
  import opened Windows
  import opened RateLimiter

  datatype Hit = Hit(time: int, cost: int)

  const HITS: Lens<Hit> := Lens((h: Hit) => h.time, (h: Hit) => 1)
  const COST: Lens<Hit> := Lens((h: Hit) => h.time, (h: Hit) => h.cost)

  /** The limiter together with what really happened. */
  datatype World = World(store: Store, logs: map<string, seq<Hit>>, clock: int)

  function Log(w: World, key: string): seq<Hit> { if key in w.logs then w.logs[key] else [] }

  datatype Op =
    | Read(key: string, now: int)
    | SyncRead(key: string, now: int)
    | Increment(key: string, cost: int, now: int)
    | Admit(key: string, cost: int, checkedAt: int, now: int)
    | Reset(key: string, now: int)
    | Evict(now: int)

  /** Clock readings never go back. */
  predicate Timely(w: World, op: Op) {
    w.clock <= op.now && (op.Admit? ==> w.clock <= op.checkedAt <= op.now)
  }

  function Append(w: World, key: string, hit: Hit): map<string, seq<Hit>> {
    w.logs[key := Log(w, key) + [hit]]
  }

  function Apply(cfg: Config, w: World, op: Op): World {
    match op
    case Read(key, now) => World(ReadStep(cfg, w.store, key, now), w.logs, now)
    case SyncRead(key, now) => World(SyncReadStep(cfg, w.store, key, now), w.logs, now)
    case Increment(key, cost, now) =>
      World(IncrementStep(cfg, w.store, key, cost, now), Append(w, key, Hit(now, cost)), now)
    case Admit(key, cost, checkedAt, now) =>
      var allowed := Check(cfg, Current(cfg, w.store, key, checkedAt), cost, checkedAt).Allowed();
      World(AdmitStep(cfg, w.store, key, cost, checkedAt, now),
            if allowed then Append(w, key, Hit(now, cost)) else w.logs, now)
    case Reset(key, now) => World(ResetStep(w.store, key), w.logs[key := []], now)
    case Evict(now) => World(EvictStep(w.store), w.logs, now)
  }

  predicate TimelyRun(cfg: Config, w: World, ops: seq<Op>)
    decreases |ops|
  {
    ops == [] || (Timely(w, ops[0]) && TimelyRun(cfg, Apply(cfg, w, ops[0]), ops[1..]))
  }

  function Run(cfg: Config, w: World, ops: seq<Op>): World
    decreases |ops|
  {
    if ops == [] then w else Run(cfg, Apply(cfg, w, ops[0]), ops[1..])
  }

  function Start(clock: int): World { World(Store(map[], map[]), map[], clock) }

  // ----- what a record must say about the log

  /** Entries and log agree on the number of hits and on the money spent after `lo`. */
  predicate SameSums(entries: seq<Entry>, log: seq<Hit>, lo: int) {
    && SumAfter(COUNT, entries, lo) == SumAfter(HITS, log, lo)
    && SumAfter(SPENT, entries, lo) == SumAfter(COST, log, lo)
  }

  ghost predicate Agrees(cfg: Config, d: Data, log: seq<Hit>, now: int) {
    && Ascending(d.entries, now)
    && (forall lo | lo >= now - cfg.dayMs :: SameSums(d.entries, log, lo))
    && d.totalCost == SumAll(COST, log)
    && d.lastRequestTime == (if log == [] then None else Some(log[|log| - 1].time))
  }

  /** Timestamps strictly increase, none lies in the future, and no entry is empty. */
  predicate Ascending(entries: seq<Entry>, now: int) {
    && (forall i | 0 <= i < |entries| :: entries[i].timestamp <= now && entries[i].count >= 1)
    && (forall i, j | 0 <= i < j < |entries| :: entries[i].timestamp < entries[j].timestamp)
  }

  ghost predicate Consistent(cfg: Config, w: World, key: string) {
    && Ordered(HITS, Log(w, key), w.clock)
    && Agrees(cfg, OnDisk(w.store, key), Log(w, key), w.clock)
    && Agrees(cfg, Loaded(w.store, key), Log(w, key), w.clock)
  }

  // ----- each step keeps it

  lemma {:induction false} KeepAscending(entries: seq<Entry>, cutoff: int, now: int)
    requires Ascending(entries, now)
    ensures Ascending(Keep(COUNT, entries, cutoff), now)
  {
    if entries != [] {
      var n := |entries| - 1;
      KeepAscending(entries[..n], cutoff, entries[n].timestamp - 1);
    }
  }

  lemma PrunedAgrees(cfg: Config, d: Data, log: seq<Hit>, before: int, now: int)
    requires Agrees(cfg, d, log, before) && before <= now
    ensures Agrees(cfg, Pruned(d, now, cfg.dayMs), log, now)
  {
    var cutoff := now - cfg.dayMs;
    KeepAscending(d.entries, cutoff, now);
    forall lo | lo >= cutoff
      ensures SameSums(Keep(COUNT, d.entries, cutoff), log, lo)
    {
      assert SameSums(d.entries, log, lo);
      KeepSums(COUNT, COUNT, d.entries, cutoff, lo);
      KeepSums(SPENT, COUNT, d.entries, cutoff, lo);
    }
  }

  lemma BumpedSums(d: Data, cost: int, now: int, lo: int)
    ensures SumAfter(COUNT, Bumped(d, cost, now).entries, lo)
         == SumAfter(COUNT, d.entries, lo) + (if now > lo then 1 else 0)
    ensures SumAfter(SPENT, Bumped(d, cost, now).entries, lo)
         == SumAfter(SPENT, d.entries, lo) + (if now > lo then cost else 0)
  {
    var n := |d.entries|;
    if n > 0 && d.entries[n - 1].timestamp == now {
      var last := Entry(now, d.entries[n - 1].count + 1, d.entries[n - 1].cost + cost);
      SumAfterSnoc(COUNT, d.entries[..n - 1], last, lo);
      SumAfterSnoc(SPENT, d.entries[..n - 1], last, lo);
    } else {
      SumAfterSnoc(COUNT, d.entries, Entry(now, 1, cost), lo);
      SumAfterSnoc(SPENT, d.entries, Entry(now, 1, cost), lo);
    }
  }

  lemma BumpedSameSums(d: Data, log: seq<Hit>, cost: int, now: int, lo: int)
    requires SameSums(d.entries, log, lo)
    ensures SameSums(Bumped(d, cost, now).entries, log + [Hit(now, cost)], lo)
  {
    BumpedSums(d, cost, now, lo);
    SumAfterSnoc(HITS, log, Hit(now, cost), lo);
    SumAfterSnoc(COST, log, Hit(now, cost), lo);
  }

  lemma BumpedAscending(d: Data, cost: int, now: int)
    requires Ascending(d.entries, now)
    ensures Ascending(Bumped(d, cost, now).entries, now)
  {
  }

  lemma BumpedAgrees(cfg: Config, d: Data, log: seq<Hit>, cost: int, now: int)
    requires Agrees(cfg, d, log, now)
    ensures Agrees(cfg, Bumped(d, cost, now), log + [Hit(now, cost)], now)
  {
    forall lo | lo >= now - cfg.dayMs
      ensures SameSums(Bumped(d, cost, now).entries, log + [Hit(now, cost)], lo)
    {
      BumpedSameSums(d, log, cost, now, lo);
    }
    BumpedAscending(d, cost, now);
    SumAllSnoc(COST, log, Hit(now, cost));
  }

  lemma AgreesLater(cfg: Config, d: Data, log: seq<Hit>, before: int, now: int)
    requires Agrees(cfg, d, log, before) && before <= now
    ensures Agrees(cfg, d, log, now)
  {
  }

  lemma IncrementConsistent(cfg: Config, w: World, key: string, cost: int, now: int)
    requires Consistent(cfg, w, key) && w.clock <= now
    ensures Consistent(cfg, Apply(cfg, w, Increment(key, cost, now)), key)
  {
    var current := Current(cfg, w.store, key, now);
    PrunedAgrees(cfg, Loaded(w.store, key), Log(w, key), w.clock, now);
    BumpedAgrees(cfg, current, Log(w, key), cost, now);
    PrunedAgrees(cfg, Bumped(current, cost, now), Log(w, key) + [Hit(now, cost)], now, now);
  }

  lemma ReadConsistent(cfg: Config, w: World, key: string, now: int)
    requires Consistent(cfg, w, key) && w.clock <= now
    ensures Consistent(cfg, Apply(cfg, w, Read(key, now)), key)
    ensures Agrees(cfg, Current(cfg, w.store, key, now), Log(w, key), now)
  {
    PrunedAgrees(cfg, Loaded(w.store, key), Log(w, key), w.clock, now);
    AgreesLater(cfg, OnDisk(w.store, key), Log(w, key), w.clock, now);
  }

  lemma IdleConsistent(cfg: Config, w: World, w': World, key: string)
    requires Consistent(cfg, w, key) && w.clock <= w'.clock
    requires OnDisk(w'.store, key) == OnDisk(w.store, key) && Log(w', key) == Log(w, key)
    requires Loaded(w'.store, key) == Loaded(w.store, key) || Loaded(w'.store, key) == OnDisk(w.store, key)
    ensures Consistent(cfg, w', key)
  {
  }

  /** An admission is a read followed by nothing or by an increment. */
  lemma AdmitIsReadThenIncrement(cfg: Config, w: World, op: Op)
    requires op.Admit?
    ensures var read := Apply(cfg, w, Read(op.key, op.checkedAt));
            Apply(cfg, w, op) ==
            if Check(cfg, Current(cfg, w.store, op.key, op.checkedAt), op.cost, op.checkedAt).Allowed()
            then Apply(cfg, read, Increment(op.key, op.cost, op.now))
            else read.(clock := op.now)
  {
  }

  lemma StepConsistent(cfg: Config, w: World, op: Op, key: string)
    requires Consistent(cfg, w, key) && Timely(w, op)
    ensures Consistent(cfg, Apply(cfg, w, op), key)
  {
    var w' := Apply(cfg, w, op);
    if op.Evict? || op.key != key {
      IdleConsistent(cfg, w, w', key);
    } else {
      match op
      case Read(_, now) => ReadConsistent(cfg, w, key, now);
      case SyncRead(_, now) =>
        if key in w.store.memory { ReadConsistent(cfg, w, key, now); } else { IdleConsistent(cfg, w, w', key); }
      case Increment(_, cost, now) => IncrementConsistent(cfg, w, key, cost, now);
      case Reset(_, now) =>
      case Admit(_, _, _, _) => AdmitConsistent(cfg, w, op, key);
    }
  }

  lemma AdmitConsistent(cfg: Config, w: World, op: Op, key: string)
    requires Consistent(cfg, w, key) && op.Admit? && op.key == key && Timely(w, op)
    ensures Consistent(cfg, Apply(cfg, w, op), key)
  {
    var read := Apply(cfg, w, Read(key, op.checkedAt));
    AdmitIsReadThenIncrement(cfg, w, op);
    ReadConsistent(cfg, w, key, op.checkedAt);
    if Check(cfg, Current(cfg, w.store, key, op.checkedAt), op.cost, op.checkedAt).Allowed() {
      IncrementConsistent(cfg, read, key, op.cost, op.now);
    } else {
      IdleConsistent(cfg, read, read.(clock := op.now), key);
    }
  }

  lemma {:induction false} RunConsistentFrom(cfg: Config, w: World, ops: seq<Op>, key: string)
    requires Consistent(cfg, w, key) && TimelyRun(cfg, w, ops)
    ensures Consistent(cfg, Run(cfg, w, ops), key)
    decreases |ops|
  {
    if ops != [] {
      StepConsistent(cfg, w, ops[0], key);
      RunConsistentFrom(cfg, Apply(cfg, w, ops[0]), ops[1..], key);
    }
  }

  // ----- the window refines the log

  /** On ascending timestamps the early exit loses nothing. */
  lemma {:induction false} TailCountIsSum(entries: seq<Entry>, cutoff: int, now: int)
    requires Ascending(entries, now)
    ensures TailCount(entries, cutoff) == SumAfter(COUNT, entries, cutoff)
  {
    if entries != [] {
      var n := |entries| - 1;
      if entries[n].timestamp > cutoff {
        TailCountIsSum(entries[..n], cutoff, now);
      } else {
        SumAfterNone(COUNT, entries, cutoff);
      }
    }
  }

  /** What a check of a record that agrees with the log finds. */
  lemma CheckSeesLog(cfg: Config, d: Data, log: seq<Hit>, now: int)
    requires cfg.windowMs <= cfg.dayMs && Agrees(cfg, d, log, now)
    ensures TailCount(d.entries, now - cfg.windowMs) == SumAfter(HITS, log, now - cfg.windowMs)
    ensures SumAfter(COUNT, d.entries, now - cfg.dayMs) == SumAfter(HITS, log, now - cfg.dayMs)
  {
    TailCountIsSum(d.entries, now - cfg.windowMs, now);
    assert SameSums(d.entries, log, now - cfg.windowMs);
    assert SameSums(d.entries, log, now - cfg.dayMs);
  }

  lemma StateRefinesLog(cfg: Config, w: World, key: string, cost: int, now: int)
    requires cfg.windowMs <= cfg.dayMs && Consistent(cfg, w, key) && w.clock <= now
    ensures RefinesLog(cfg, w, key, cost, now)
  {
    ReadConsistent(cfg, w, key, now);
    CheckSeesLog(cfg, Current(cfg, w.store, key, now), Log(w, key), now);
    CheckReports(cfg, Current(cfg, w.store, key, now), cost, now);
    KeptIsLater(COUNT, Loaded(w.store, key).entries, now - cfg.dayMs);
  }

  /** An increment leaves nothing older than a day in the cache or in storage. */
  lemma IncrementIsRecent(cfg: Config, s: Store, key: string, cost: int, now: int)
    ensures var after := IncrementStep(cfg, s, key, cost, now);
            && key in after.memory && key in after.disk && after.disk[key] == after.memory[key]
            && forall i | 0 <= i < |after.disk[key].entries| :: after.disk[key].entries[i].timestamp > now - cfg.dayMs
  {
    KeptIsLater(COUNT, Bumped(Current(cfg, s, key, now), cost, now).entries, now - cfg.dayMs);
  }

  lemma CheckReports(cfg: Config, d: Data, cost: int, now: int)
    ensures var r := Check(cfg, d, cost, now);
            && r.currentRpm == TailCount(d.entries, now - cfg.windowMs)
            && r.currentRpd == SumAfter(COUNT, d.entries, now - cfg.dayMs)
            && r.accumulated == d.totalCost
            && (r.reason.RpmExceeded? <==> r.currentRpm >= cfg.rpmLimit)
            && (r.reason.RpdExceeded? <==> r.currentRpm < cfg.rpmLimit && r.currentRpd >= cfg.rpdLimit)
            && (r.reason.BudgetExceeded? <==>
                  && r.currentRpm < cfg.rpmLimit && r.currentRpd < cfg.rpdLimit
                  && cfg.maxBudget.Some? && r.accumulated + cost > cfg.maxBudget.value)
            && (r.reason.BudgetExceeded? ==> r.retryAfterSeconds == 60)
            && (r.Allowed() ==> r.retryAfterSeconds == 0)
  {
  }

  /** Both counts, the accumulated cost and the last request time are those of the log. */
  predicate RefinesLog(cfg: Config, w: World, key: string, cost: int, now: int) {
    var log, d := Log(w, key), Current(cfg, w.store, key, now);
    var r := Check(cfg, d, cost, now);
    && Ascending(d.entries, now)
    && r.currentRpm == SumAfter(HITS, log, now - cfg.windowMs)
    && r.currentRpd == SumAfter(HITS, log, now - cfg.dayMs)
    && r.accumulated == SumAll(COST, log)
    && d.lastRequestTime == (if log == [] then None else Some(log[|log| - 1].time))
    && forall i | 0 <= i < |d.entries| :: d.entries[i].timestamp > now - cfg.dayMs
  }

  /**
   * After any run of increments, admissions, reads, resets and evictions, what a check finds in
   * the cache is what the log says: both counts, the total spent though entries were pruned, and
   * strictly increasing timestamps.
   */
  lemma WindowRefinesLog(cfg: Config, clock: int, ops: seq<Op>, key: string, cost: int, now: int)
    requires cfg.windowMs <= cfg.dayMs
    requires TimelyRun(cfg, Start(clock), ops) && Run(cfg, Start(clock), ops).clock <= now
    ensures RefinesLog(cfg, Run(cfg, Start(clock), ops), key, cost, now)
  {
    RunConsistentFrom(cfg, Start(clock), ops, key);
    StateRefinesLog(cfg, Run(cfg, Start(clock), ops), key, cost, now);
  }

  /** The decision of a check, told from the log alone. */
  predicate DecidedByLog(cfg: Config, log: seq<Hit>, r: CheckResult, cost: int, now: int) {
    var minuteFull := SumAfter(HITS, log, now - cfg.windowMs) >= cfg.rpmLimit;
    var dayFull := SumAfter(HITS, log, now - cfg.dayMs) >= cfg.rpdLimit;
    var overspent := cfg.maxBudget.Some? && SumAll(COST, log) + cost > cfg.maxBudget.value;
    && (r.reason.RpmExceeded? <==> minuteFull)
    && (r.reason.RpdExceeded? <==> !minuteFull && dayFull)
    && (r.reason.BudgetExceeded? <==> !minuteFull && !dayFull && overspent)
    && (r.reason.Unrestricted? <==> !minuteFull && !dayFull && !overspent)
    && (r.reason.BudgetExceeded? ==> r.retryAfterSeconds == 60)
    && (r.reason.Unrestricted? ==> r.retryAfterSeconds == 0)
  }

  /**
   * After any run, a check refuses for the minute if the log fills it, else for the day, else for
   * the budget if what was ever spent and this cost exceed it, and else allows the request.
   */
  lemma DecisionFollowsLog(cfg: Config, clock: int, ops: seq<Op>, key: string, cost: int, now: int)
    requires cfg.windowMs <= cfg.dayMs
    requires TimelyRun(cfg, Start(clock), ops) && Run(cfg, Start(clock), ops).clock <= now
    ensures var w := Run(cfg, Start(clock), ops);
            DecidedByLog(cfg, Log(w, key), Check(cfg, Current(cfg, w.store, key, now), cost, now), cost, now)
  {
    var w := Run(cfg, Start(clock), ops);
    WindowRefinesLog(cfg, clock, ops, key, cost, now);
    CheckReports(cfg, Current(cfg, w.store, key, now), cost, now);
  }

  // ----- guarded runs

  /** Every increment is made by an admission. */
  predicate OnlyAdmissions(ops: seq<Op>) {
    forall i | 0 <= i < |ops| :: !ops[i].Increment?
  }

  predicate WithinLimits(cfg: Config, log: seq<Hit>) {
    && Guarded(HITS, log, cfg.windowMs, cfg.rpmLimit)
    && Guarded(HITS, log, cfg.dayMs, cfg.rpdLimit)
    && (cfg.maxBudget.Some? && log != [] ==> SumAll(COST, log) <= cfg.maxBudget.value)
  }

  lemma HitFits(cfg: Config, log: seq<Hit>, hit: Hit)
    requires WithinLimits(cfg, log)
    requires SumAfter(HITS, log, hit.time - cfg.windowMs) < cfg.rpmLimit
    requires SumAfter(HITS, log, hit.time - cfg.dayMs) < cfg.rpdLimit
    requires cfg.maxBudget.Some? ==> SumAll(COST, log) + hit.cost <= cfg.maxBudget.value
    ensures WithinLimits(cfg, log + [hit])
  {
  }

  lemma AllowedMeans(cfg: Config, d: Data, cost: int, now: int)
    requires Check(cfg, d, cost, now).Allowed()
    ensures TailCount(d.entries, now - cfg.windowMs) < cfg.rpmLimit
    ensures SumAfter(COUNT, d.entries, now - cfg.dayMs) < cfg.rpdLimit
    ensures cfg.maxBudget.Some? ==> d.totalCost + cost <= cfg.maxBudget.value
  {
  }

  /** An allowed check leaves room for one more hit at any time from then on. */
  lemma AllowedHitFits(cfg: Config, w: World, key: string, cost: int, checkedAt: int, now: int)
    requires cfg.windowMs <= cfg.dayMs && w.clock <= checkedAt <= now
    requires Consistent(cfg, w, key) && WithinLimits(cfg, Log(w, key))
    requires Check(cfg, Current(cfg, w.store, key, checkedAt), cost, checkedAt).Allowed()
    ensures WithinLimits(cfg, Log(w, key) + [Hit(now, cost)])
  {
    var log, d := Log(w, key), Current(cfg, w.store, key, checkedAt);
    assert Agrees(cfg, d, log, checkedAt) by { ReadConsistent(cfg, w, key, checkedAt); }
    RoomLater(cfg, d, log, cost, checkedAt, now);
    HitFits(cfg, log, Hit(now, cost));
  }

  lemma RoomLater(cfg: Config, d: Data, log: seq<Hit>, cost: int, checkedAt: int, now: int)
    requires cfg.windowMs <= cfg.dayMs && checkedAt <= now && Agrees(cfg, d, log, checkedAt)
    requires Check(cfg, d, cost, checkedAt).Allowed()
    ensures SumAfter(HITS, log, now - cfg.windowMs) < cfg.rpmLimit
    ensures SumAfter(HITS, log, now - cfg.dayMs) < cfg.rpdLimit
    ensures cfg.maxBudget.Some? ==> SumAll(COST, log) + cost <= cfg.maxBudget.value
  {
    AllowedMeans(cfg, d, cost, checkedAt);
    CheckSeesLog(cfg, d, log, checkedAt);
    SumAfterShrinks(HITS, log, checkedAt - cfg.windowMs, now - cfg.windowMs);
    SumAfterShrinks(HITS, log, checkedAt - cfg.dayMs, now - cfg.dayMs);
  }

  lemma {:induction false} AdmissionsStayWithin(cfg: Config, w: World, ops: seq<Op>, key: string)
    requires cfg.windowMs <= cfg.dayMs
    requires Consistent(cfg, w, key) && WithinLimits(cfg, Log(w, key))
    requires TimelyRun(cfg, w, ops) && OnlyAdmissions(ops)
    ensures WithinLimits(cfg, Log(Run(cfg, w, ops), key))
    ensures Consistent(cfg, Run(cfg, w, ops), key)
    decreases |ops|
  {
    if ops != [] {
      var op := ops[0];
      StepConsistent(cfg, w, op, key);
      if op.Admit? && op.key == key &&
        Check(cfg, Current(cfg, w.store, key, op.checkedAt), op.cost, op.checkedAt).Allowed()
      {
        AllowedHitFits(cfg, w, key, op.cost, op.checkedAt, op.now);
      }
      assert !ops[0].Increment?;
      AdmissionsStayWithin(cfg, Apply(cfg, w, op), ops[1..], key);
    }
  }

  /**
   * Guarded admission: in every run whose increments all come from admissions, every interval of
   * one window length holds at most rpmLimit hits, every interval of one day at most rpdLimit,
   * and the spending stays within the budget, across evictions, resets and prunes.
   */
  lemma EveryWindowWithinLimits(cfg: Config, clock: int, ops: seq<Op>, key: string, a: int)
    requires cfg.windowMs <= cfg.dayMs
    requires TimelyRun(cfg, Start(clock), ops) && OnlyAdmissions(ops)
    ensures var log := Log(Run(cfg, Start(clock), ops), key);
            && SumWithin(HITS, log, a, a + cfg.windowMs) <= AtLeastZero(cfg.rpmLimit)
            && SumWithin(HITS, log, a, a + cfg.dayMs) <= AtLeastZero(cfg.rpdLimit)
            && (cfg.maxBudget.Some? ==> SumAll(COST, log) <= AtLeastZero(cfg.maxBudget.value))
  {
    AdmissionsStayWithin(cfg, Start(clock), ops, key);
    var w := Run(cfg, Start(clock), ops);
    WindowsOfLog(cfg, Log(w, key), w.clock, a);
  }

  lemma WindowsOfLog(cfg: Config, log: seq<Hit>, now: int, a: int)
    requires WithinLimits(cfg, log) && Ordered(HITS, log, now)
    ensures SumWithin(HITS, log, a, a + cfg.windowMs) <= AtLeastZero(cfg.rpmLimit)
    ensures SumWithin(HITS, log, a, a + cfg.dayMs) <= AtLeastZero(cfg.rpdLimit)
    ensures cfg.maxBudget.Some? ==> SumAll(COST, log) <= AtLeastZero(cfg.maxBudget.value)
  {
    EveryWindow(HITS, log, cfg.windowMs, cfg.rpmLimit, a);
    EveryWindow(HITS, log, cfg.dayMs, cfg.rpdLimit, a);
  }

  // ----- retry-after

  /** The count over a window does not change until the oldest entry in it leaves, and then it falls. */
  lemma RetryMarksTheDrop(entries: seq<Entry>, now: int, widthMs: int, t: int)
    requires Ascending(entries, now) && FirstInside(COUNT, entries, now - widthMs) < |entries| && now <= t
    ensures var r := RetryAfter(entries, now, widthMs);
            && r >= 1
            && (t <= now + 1000 * (r - 1) ==>
                  SumAfter(COUNT, entries, t - widthMs) == SumAfter(COUNT, entries, now - widthMs))
            && (t >= now + 1000 * r ==>
                  SumAfter(COUNT, entries, t - widthMs) < SumAfter(COUNT, entries, now - widthMs))
  {
    var k := FirstInside(COUNT, entries, now - widthMs);
    var r := RetryAfter(entries, now, widthMs);
    var remaining := entries[k].timestamp + widthMs - now;
    assert (r - 1) * 1000 < remaining <= r * 1000;
    if t <= now + 1000 * (r - 1) {
      SumAfterGap(COUNT, entries, now - widthMs, t - widthMs);
    }
    if t >= now + 1000 * r {
      SumAfterDrops(COUNT, entries, k, now - widthMs, t - widthMs);
    }
  }

  lemma CountedMeansInside(entries: seq<Entry>, cutoff: int)
    requires SumAfter(COUNT, entries, cutoff) > 0
    ensures FirstInside(COUNT, entries, cutoff) < |entries|
  {
  }

  /** The window a refusal is about: its length and its limit. */
  function Exceeded(cfg: Config, c: CheckResult): (int, int) {
    if c.reason.RpmExceeded? then (cfg.windowMs, cfg.rpmLimit) else (cfg.dayMs, cfg.rpdLimit)
  }

  /** The window of a refusal is full up to r - 1 seconds on, and has room from r seconds on. */
  predicate RetryExact(cfg: Config, c: CheckResult, log: seq<Hit>, now: int, t: int) {
    var (width, limit) := Exceeded(cfg, c);
    && c.retryAfterSeconds >= 1
    && (t <= now + 1000 * (c.retryAfterSeconds - 1) ==> SumAfter(HITS, log, t - width) == limit)
    && (t >= now + 1000 * c.retryAfterSeconds ==> SumAfter(HITS, log, t - width) < limit)
  }

  lemma RetryMarksTheLog(cfg: Config, d: Data, log: seq<Hit>, width: int, now: int, t: int)
    requires Agrees(cfg, d, log, now) && width <= cfg.dayMs && now <= t && SumAfter(HITS, log, now - width) > 0
    ensures var r := RetryAfter(d.entries, now, width);
            && r >= 1
            && (t <= now + 1000 * (r - 1) ==> SumAfter(HITS, log, t - width) == SumAfter(HITS, log, now - width))
            && (t >= now + 1000 * r ==> SumAfter(HITS, log, t - width) < SumAfter(HITS, log, now - width))
  {
    assert SameSums(d.entries, log, now - width) && SameSums(d.entries, log, t - width);
    CountedMeansInside(d.entries, now - width);
    RetryMarksTheDrop(d.entries, now, width, t);
  }

  lemma RetryOnAgreeingRecord(cfg: Config, d: Data, log: seq<Hit>, cost: int, now: int, t: int)
    requires cfg.windowMs <= cfg.dayMs && cfg.rpmLimit >= 1 && cfg.rpdLimit >= 1 && now <= t
    requires Agrees(cfg, d, log, now) && Ordered(HITS, log, now) && WithinLimits(cfg, log)
    requires Check(cfg, d, cost, now).reason in {RpmExceeded, RpdExceeded}
    ensures RetryExact(cfg, Check(cfg, d, cost, now), log, now, t)
  {
    var (width, limit) := Exceeded(cfg, Check(cfg, d, cost, now));
    CheckSeesLog(cfg, d, log, now);
    assert SumAfter(HITS, log, now - width) == limit by { GuardedNow(HITS, log, width, limit, now); }
    RetryMarksTheLog(cfg, d, log, width, now, t);
  }

  /**
   * Exact retry-after: a run of admissions ends in a refusal because a window (the minute or the
   * day) is full, and the check says to come back after r seconds. As long as no other hit is
   * logged, the window is still full at every moment up to r - 1 seconds on, and has room at
   * every moment from r seconds on: r is the least number of whole seconds to wait.
   */
  lemma RetryAfterIsLeast(cfg: Config, clock: int, ops: seq<Op>, key: string, cost: int, now: int, t: int)
    requires cfg.windowMs <= cfg.dayMs && cfg.rpmLimit >= 1 && cfg.rpdLimit >= 1
    requires TimelyRun(cfg, Start(clock), ops) && OnlyAdmissions(ops)
    requires Run(cfg, Start(clock), ops).clock <= now <= t
    requires var w := Run(cfg, Start(clock), ops);
             Check(cfg, Current(cfg, w.store, key, now), cost, now).reason in {RpmExceeded, RpdExceeded}
    ensures var w := Run(cfg, Start(clock), ops);
            RetryExact(cfg, Check(cfg, Current(cfg, w.store, key, now), cost, now), Log(w, key), now, t)
  {
    AdmissionsStayWithin(cfg, Start(clock), ops, key);
    RetryInState(cfg, Run(cfg, Start(clock), ops), key, cost, now, t);
  }

  lemma RetryInState(cfg: Config, w: World, key: string, cost: int, now: int, t: int)
    requires cfg.windowMs <= cfg.dayMs && cfg.rpmLimit >= 1 && cfg.rpdLimit >= 1 && w.clock <= now <= t
    requires Consistent(cfg, w, key) && WithinLimits(cfg, Log(w, key))
    requires Check(cfg, Current(cfg, w.store, key, now), cost, now).reason in {RpmExceeded, RpdExceeded}
    ensures RetryExact(cfg, Check(cfg, Current(cfg, w.store, key, now), cost, now), Log(w, key), now, t)
  {
    ReadConsistent(cfg, w, key, now);
    RetryOnAgreeingRecord(cfg, Current(cfg, w.store, key, now), Log(w, key), cost, now, t);
  }

  /** A check at time t is refused for the same reason up to r - 1 seconds after `now`, and never from r seconds on. */
  predicate RefusedUntil(cfg: Config, later: World, key: string, cost: int, refusal: CheckResult, now: int, t: int) {
    RecursUntil(refusal, Check(cfg, Current(cfg, later.store, key, t), cost, t).reason, now, t)
  }

  predicate RecursUntil(refusal: CheckResult, again: Reason, now: int, t: int) {
    && (t <= now + 1000 * (refusal.retryAfterSeconds - 1) ==> again == refusal.reason)
    && (t >= now + 1000 * refusal.retryAfterSeconds ==> again != refusal.reason)
  }

  /** Steps that neither count for the key unchecked nor reset it. */
  predicate Untouched(ops: seq<Op>, key: string) {
    forall i | 0 <= i < |ops| :: (ops[i].Increment? || ops[i].Reset?) ==> ops[i].key != key
  }

  /** The log fills a window of the key at time t. */
  predicate WindowFull(cfg: Config, log: seq<Hit>, t: int) {
    SumAfter(HITS, log, t - cfg.windowMs) >= cfg.rpmLimit || SumAfter(HITS, log, t - cfg.dayMs) >= cfg.rpdLimit
  }

  lemma FullBefore(cfg: Config, log: seq<Hit>, now: int, t: int)
    requires now <= t && WindowFull(cfg, log, t)
    ensures WindowFull(cfg, log, now)
  {
    SumAfterShrinks(HITS, log, now - cfg.windowMs, t - cfg.windowMs);
    SumAfterShrinks(HITS, log, now - cfg.dayMs, t - cfg.dayMs);
  }

  lemma FullAdmitsNothing(cfg: Config, w: World, op: Op, key: string, t: int)
    requires cfg.windowMs <= cfg.dayMs && Consistent(cfg, w, key) && Timely(w, op) && op.now <= t
    requires WindowFull(cfg, Log(w, key), t) && Untouched([op], key)
    ensures Log(Apply(cfg, w, op), key) == Log(w, key)
  {
    assert [op][0] == op;
    if op.Admit? && op.key == key {
      FullBefore(cfg, Log(w, key), op.checkedAt, t);
      RefusalByLog(cfg, w, key, op.cost, op.checkedAt);
    }
  }

  lemma {:induction false} ClockGrows(cfg: Config, w: World, ops: seq<Op>)
    requires TimelyRun(cfg, w, ops)
    ensures w.clock <= Run(cfg, w, ops).clock
    decreases |ops|
  {
    if ops != [] {
      ClockGrows(cfg, Apply(cfg, w, ops[0]), ops[1..]);
    }
  }

  /** As long as a window of the key is full, no admission gets through. */
  lemma {:induction false} FullStaysFull(cfg: Config, w: World, ops: seq<Op>, key: string, t: int)
    requires cfg.windowMs <= cfg.dayMs && Consistent(cfg, w, key) && TimelyRun(cfg, w, ops)
    requires Run(cfg, w, ops).clock <= t && WindowFull(cfg, Log(w, key), t) && Untouched(ops, key)
    ensures Log(Run(cfg, w, ops), key) == Log(w, key)
    decreases |ops|
  {
    if ops != [] {
      var next := Apply(cfg, w, ops[0]);
      ClockGrows(cfg, next, ops[1..]);
      FullAdmitsNothing(cfg, w, ops[0], key, t);
      StepConsistent(cfg, w, ops[0], key);
      FullStaysFull(cfg, next, ops[1..], key, t);
    }
  }

  /**
   * The same, as a client sees it, through whatever happens between a refusal for a window and the
   * next attempt. Up to r - 1 seconds on, steps that neither count unchecked nor reset leave the
   * key's log as it is; and whenever the log is the same, the refusal recurs up to r - 1 seconds on
   * and not from r seconds on.
   */
  lemma ClientMayRetryAfter(cfg: Config, clock: int, ops: seq<Op>, key: string, cost: int, now: int,
                            between: seq<Op>, t: int)
    requires cfg.windowMs <= cfg.dayMs && cfg.rpmLimit >= 1 && cfg.rpdLimit >= 1
    requires TimelyRun(cfg, Start(clock), ops) && OnlyAdmissions(ops)
    requires Run(cfg, Start(clock), ops).clock <= now
    requires var w := Run(cfg, Start(clock), ops);
             Check(cfg, Current(cfg, w.store, key, now), cost, now).reason in {RpmExceeded, RpdExceeded}
    requires var checked := Apply(cfg, Run(cfg, Start(clock), ops), Read(key, now));
             TimelyRun(cfg, checked, between) && Run(cfg, checked, between).clock <= t
    ensures var w := Run(cfg, Start(clock), ops);
            var refusal := Check(cfg, Current(cfg, w.store, key, now), cost, now);
            var later := Run(cfg, Apply(cfg, w, Read(key, now)), between);
            RetriedExactly(cfg, w, later, key, cost, refusal, now, between, t)
  {
    AdmissionsStayWithin(cfg, Start(clock), ops, key);
    RetryFromState(cfg, Run(cfg, Start(clock), ops), key, cost, now, between, t);
  }

  predicate RetriedExactly(cfg: Config, w: World, later: World, key: string, cost: int, refusal: CheckResult, now: int,
                           between: seq<Op>, t: int)
  {
    && (t <= now + 1000 * (refusal.retryAfterSeconds - 1) && Untouched(between, key) ==> Log(later, key) == Log(w, key))
    && (Log(later, key) == Log(w, key) ==> RefusedUntil(cfg, later, key, cost, refusal, now, t))
  }

  lemma RefusalMeansFull(cfg: Config, refusal: CheckResult, log: seq<Hit>, now: int, t: int)
    requires RetryExact(cfg, refusal, log, now, t) && t <= now + 1000 * (refusal.retryAfterSeconds - 1)
    ensures WindowFull(cfg, log, t)
  {
  }

  lemma EarlyRetryFindsSameLog(cfg: Config, checked: World, key: string, refusal: CheckResult, now: int,
                               between: seq<Op>, t: int)
    requires cfg.windowMs <= cfg.dayMs && Consistent(cfg, checked, key) && TimelyRun(cfg, checked, between)
    requires Run(cfg, checked, between).clock <= t && RetryExact(cfg, refusal, Log(checked, key), now, t)
    requires t <= now + 1000 * (refusal.retryAfterSeconds - 1) && Untouched(between, key)
    ensures Log(Run(cfg, checked, between), key) == Log(checked, key)
  {
    RefusalMeansFull(cfg, refusal, Log(checked, key), now, t);
    FullStaysFull(cfg, checked, between, key, t);
  }

  lemma RetryFromState(cfg: Config, w: World, key: string, cost: int, now: int, between: seq<Op>, t: int)
    requires cfg.windowMs <= cfg.dayMs && cfg.rpmLimit >= 1 && cfg.rpdLimit >= 1 && w.clock <= now
    requires Consistent(cfg, w, key) && WithinLimits(cfg, Log(w, key))
    requires Check(cfg, Current(cfg, w.store, key, now), cost, now).reason in {RpmExceeded, RpdExceeded}
    requires var checked := Apply(cfg, w, Read(key, now));
             TimelyRun(cfg, checked, between) && Run(cfg, checked, between).clock <= t
    ensures var refusal := Check(cfg, Current(cfg, w.store, key, now), cost, now);
            var later := Run(cfg, Apply(cfg, w, Read(key, now)), between);
            RetriedExactly(cfg, w, later, key, cost, refusal, now, between, t)
  {
    var checked := Apply(cfg, w, Read(key, now));
    var later, refusal := Run(cfg, checked, between), Check(cfg, Current(cfg, w.store, key, now), cost, now);
    assert Consistent(cfg, checked, key) && Log(checked, key) == Log(w, key) by { ReadConsistent(cfg, w, key, now); }
    ClockGrows(cfg, checked, between);
    RetryInState(cfg, w, key, cost, now, t);
    RunConsistentFrom(cfg, checked, between, key);
    if t <= now + 1000 * (refusal.retryAfterSeconds - 1) && Untouched(between, key) {
      EarlyRetryFindsSameLog(cfg, checked, key, refusal, now, between, t);
    }
    if Log(later, key) == Log(w, key) {
      RefusedAsLogged(cfg, w, later, key, cost, now, t);
    }
  }

  lemma RefusedAsLogged(cfg: Config, w: World, later: World, key: string, cost: int, now: int, t: int)
    requires cfg.windowMs <= cfg.dayMs && w.clock <= now <= t && later.clock <= t
    requires Consistent(cfg, w, key) && Consistent(cfg, later, key) && Log(later, key) == Log(w, key)
    requires var refusal := Check(cfg, Current(cfg, w.store, key, now), cost, now);
             refusal.reason in {RpmExceeded, RpdExceeded} && RetryExact(cfg, refusal, Log(w, key), now, t)
    ensures RefusedUntil(cfg, later, key, cost, Check(cfg, Current(cfg, w.store, key, now), cost, now), now, t)
  {
    RefusalByLog(cfg, w, key, cost, now);
    RefusalByLog(cfg, later, key, cost, t);
    ReasonsRecur(cfg, Log(w, key), Check(cfg, Current(cfg, w.store, key, now), cost, now),
                 Check(cfg, Current(cfg, later.store, key, t), cost, t).reason, now, t);
  }

  lemma ReasonsRecur(cfg: Config, log: seq<Hit>, refusal: CheckResult, again: Reason, now: int, t: int)
    requires refusal.reason in {RpmExceeded, RpdExceeded} && now <= t && RetryExact(cfg, refusal, log, now, t)
    requires ReasonByLog(cfg, log, refusal.reason, now) && ReasonByLog(cfg, log, again, t)
    ensures RecursUntil(refusal, again, now, t)
  {
    SumAfterShrinks(HITS, log, now - cfg.windowMs, t - cfg.windowMs);
  }

  /** The reason a window gives for a refusal, by the log. */
  predicate ReasonByLog(cfg: Config, log: seq<Hit>, reason: Reason, t: int) {
    var minuteFull := SumAfter(HITS, log, t - cfg.windowMs) >= cfg.rpmLimit;
    && (reason.RpmExceeded? <==> minuteFull)
    && (reason.RpdExceeded? <==> !minuteFull && SumAfter(HITS, log, t - cfg.dayMs) >= cfg.rpdLimit)
  }

  /** A check refuses for the minute window exactly when the log fills it, else for the day window when that is full. */
  lemma RefusalByLog(cfg: Config, w: World, key: string, cost: int, now: int)
    requires cfg.windowMs <= cfg.dayMs && Consistent(cfg, w, key) && w.clock <= now
    ensures ReasonByLog(cfg, Log(w, key), Check(cfg, Current(cfg, w.store, key, now), cost, now).reason, now)
  {
    StateRefinesLog(cfg, w, key, cost, now);
    CheckReports(cfg, Current(cfg, w.store, key, now), cost, now);
  }
}
