/** Whole runs of the demo sandbox against a log of every recorded request. */
module DemoRuns {
  import opened Windows
  import opened Ledger
  import opened DemoSandbox

  datatype Op = Record(ip: string, now: int) | Prune(now: int)

  datatype World = World(state: State, log: seq<Item>, clock: int)

  function Apply(cfg: Config, w: World, op: Op): World {
    match op
    case Prune(now) => World(PruneStep(cfg, w.state, now), w.log, now)
    case Record(ip, now) =>
      World(RecordStep(cfg, w.state, ip, now),
            if Check(cfg, w.state, ip, now).verdict.Allowed? then w.log + [Item(now, ip, 1)] else w.log,
            now)
  }

  function Start(clock: int): World { World(State(map[], []), [], clock) }

  function Run(cfg: Config, w: World, ops: seq<Op>): World
    decreases |ops|
  {
    if ops == [] then w else Run(cfg, Apply(cfg, w, ops[0]), ops[1..])
  }

  predicate Timely(ops: seq<Op>, clock: int)
    decreases |ops|
  {
    ops == [] || (clock <= ops[0].now && Timely(ops[1..], ops[0].now))
  }

  lemma RunCons(cfg: Config, w: World, op: Op, rest: seq<Op>)
    ensures Run(cfg, w, [op] + rest) == Run(cfg, Apply(cfg, w, op), rest)
    ensures Timely([op] + rest, w.clock) <==> w.clock <= op.now && Timely(rest, op.now)
  {
    assert ([op] + rest)[1..] == rest;
  }

  // ----- agreement with the log

  lemma {:induction false} KeptCount(ts: seq<int>, lo: int)
    ensures |Keep(STAMP, ts, lo)| == SumAfter(STAMP, ts, lo)
  {
    if ts != [] {
      KeptCount(ts[..|ts| - 1], lo);
    }
  }

  predicate SameCount(ts: seq<int>, l: Lens<Item>, log: seq<Item>, lo: int) {
    SumAfter(STAMP, ts, lo) == SumAfter(l, log, lo)
  }

  /** The timestamps count as the log does for every window no longer than `horizon`. */
  ghost predicate Tracks(ts: seq<int>, l: Lens<Item>, log: seq<Item>, now: int, horizon: int) {
    forall lo | lo >= now - horizon :: SameCount(ts, l, log, lo)
  }

  /** All recorded weights are 1, times are ordered, and the global list tracks the log for a day. */
  ghost predicate GlobalOk(w: World) {
    && Ordered(TOTAL, w.log, w.clock)
    && (forall i | 0 <= i < |w.log| :: w.log[i].weight == 1)
    && Tracks(w.state.global, TOTAL, w.log, w.clock, DAY)
  }

  /** The list of one address tracks its part of the log up to the horizon, and ends with its last request. */
  ghost predicate IpOk(w: World, ip: string, horizon: int) {
    && Tracks(Stamps(w.state, ip), Of(ip), w.log, w.clock, horizon)
    && (ip in w.state.windows ==> SumAfter(Of(ip), w.log, w.state.windows[ip].windowStart) == 0)
  }

  lemma TracksLater(ts: seq<int>, l: Lens<Item>, log: seq<Item>, before: int, now: int, horizon: int)
    requires Tracks(ts, l, log, before, horizon) && before <= now
    ensures Tracks(ts, l, log, now, horizon)
  {
  }

  lemma CountRecord(ts: seq<int>, l: Lens<Item>, log: seq<Item>, item: Item, now: int, lo: int)
    requires SameCount(ts, l, log, lo) && lo >= now - DAY && l.time(item) == now && l.weight(item) == 1
    ensures SameCount(Keep(STAMP, ts, now - DAY) + [now], l, log + [item], lo)
  {
    KeepSums(STAMP, STAMP, ts, now - DAY, lo);
    SumAfterSnoc(STAMP, Keep(STAMP, ts, now - DAY), now, lo);
    SumAfterSnoc(l, log, item, lo);
  }

  lemma CountOther(ts: seq<int>, l: Lens<Item>, log: seq<Item>, item: Item, lo: int)
    requires SameCount(ts, l, log, lo) && l.weight(item) == 0
    ensures SameCount(ts, l, log + [item], lo)
  {
    SumAfterSnoc(l, log, item, lo);
  }

  lemma TracksRecord(ts: seq<int>, l: Lens<Item>, log: seq<Item>, item: Item, before: int, now: int, horizon: int)
    requires Tracks(ts, l, log, before, horizon) && before <= now && horizon <= DAY
    requires l.time(item) == now && l.weight(item) == 1
    ensures Tracks(Keep(STAMP, ts, now - DAY) + [now], l, log + [item], now, horizon)
  {
    var recorded, longer := Keep(STAMP, ts, now - DAY) + [now], log + [item];
    forall lo | lo >= now - horizon
      ensures SameCount(recorded, l, longer, lo)
    {
      CountRecord(ts, l, log, item, now, lo);
    }
  }

  lemma TracksOther(ts: seq<int>, l: Lens<Item>, log: seq<Item>, item: Item, before: int, now: int, horizon: int)
    requires Tracks(ts, l, log, before, horizon) && before <= now && l.weight(item) == 0
    ensures Tracks(ts, l, log + [item], now, horizon)
  {
    forall lo | lo >= now - horizon
      ensures SameCount(ts, l, log + [item], lo)
    {
      CountOther(ts, l, log, item, lo);
    }
  }

  lemma RecordGlobalOk(cfg: Config, w: World, ip: string, now: int)
    requires GlobalOk(w) && w.clock <= now && Check(cfg, w.state, ip, now).verdict.Allowed?
    ensures GlobalOk(Apply(cfg, w, Record(ip, now)))
  {
    var item := Item(now, ip, 1);
    TracksRecord(w.state.global, TOTAL, w.log, item, w.clock, now, DAY);
    assert Ordered(TOTAL, w.log + [item], now);
  }

  lemma StepGlobalOk(cfg: Config, w: World, op: Op)
    requires GlobalOk(w) && w.clock <= op.now
    ensures GlobalOk(Apply(cfg, w, op))
  {
    if op.Record? && Check(cfg, w.state, op.ip, op.now).verdict.Allowed? {
      RecordGlobalOk(cfg, w, op.ip, op.now);
    } else {
      TracksLater(w.state.global, TOTAL, w.log, w.clock, op.now, DAY);
    }
  }

  lemma {:induction false} NothingAfter(log: seq<Item>, ip: string, now: int)
    requires NotLater(TOTAL, log, now)
    ensures SumAfter(Of(ip), log, now) == 0
  {
    if log != [] {
      assert TOTAL.time(log[|log| - 1]) <= now;
      NothingAfter(log[..|log| - 1], ip, now);
    }
  }

  /** Forgetting an address whose last request is older than the horizon goes unnoticed within it. */
  lemma ForgottenIsIdle(w: World, ip: string, now: int, horizon: int, stale: int)
    requires GlobalOk(w) && IpOk(w, ip, horizon) && w.clock <= now && horizon - 1 <= stale
    requires ip in w.state.windows && w.state.windows[ip].windowStart < now - stale
    ensures Tracks([], Of(ip), w.log, now, horizon)
  {
    var start := w.state.windows[ip].windowStart;
    forall lo | lo >= now - horizon
      ensures SameCount([], Of(ip), w.log, lo)
    {
      SumAfterShrinks(Of(ip), w.log, start, lo);
      SumAfterNonNegative(Of(ip), w.log, lo);
    }
  }

  lemma StepIpOk(cfg: Config, w: World, op: Op, ip: string, horizon: int)
    requires GlobalOk(w) && IpOk(w, ip, horizon) && w.clock <= op.now && horizon <= DAY
    requires op.Prune? ==> horizon - 1 <= cfg.stalePruneMs
    ensures IpOk(Apply(cfg, w, op), ip, horizon)
  {
    TracksLater(Stamps(w.state, ip), Of(ip), w.log, w.clock, op.now, horizon);
    if op.Prune? {
      if ip in w.state.windows && w.state.windows[ip].windowStart < op.now - cfg.stalePruneMs {
        ForgottenIsIdle(w, ip, op.now, horizon, cfg.stalePruneMs);
      }
    } else if Check(cfg, w.state, op.ip, op.now).verdict.Allowed? {
      var item := Item(op.now, op.ip, 1);
      if op.ip == ip {
        TracksRecord(Stamps(w.state, ip), Of(ip), w.log, item, w.clock, op.now, horizon);
        NothingAfter(w.log + [item], ip, op.now);
      } else {
        TracksOther(Stamps(w.state, ip), Of(ip), w.log, item, w.clock, op.now, horizon);
        if ip in w.state.windows {
          SumAfterSnoc(Of(ip), w.log, item, w.state.windows[ip].windowStart);
        }
      }
    }
  }

  /** Prunes of a run forget nothing younger than the horizon. */
  predicate Remembers(cfg: Config, ops: seq<Op>, horizon: int) {
    forall i | 0 <= i < |ops| :: ops[i].Prune? ==> horizon - 1 <= cfg.stalePruneMs
  }

  lemma {:induction false} RunOk(cfg: Config, w: World, ops: seq<Op>, ip: string, horizon: int)
    requires GlobalOk(w) && IpOk(w, ip, horizon) && Timely(ops, w.clock) && horizon <= DAY
    requires Remembers(cfg, ops, horizon)
    ensures GlobalOk(Run(cfg, w, ops)) && IpOk(Run(cfg, w, ops), ip, horizon)
    decreases |ops|
  {
    if ops != [] {
      StepGlobalOk(cfg, w, ops[0]);
      assert ops[0].Prune? ==> horizon - 1 <= cfg.stalePruneMs;
      StepIpOk(cfg, w, ops[0], ip, horizon);
      RunOk(cfg, Apply(cfg, w, ops[0]), ops[1..], ip, horizon);
    }
  }

  lemma StartOk(clock: int, ip: string, horizon: int)
    ensures GlobalOk(Start(clock)) && IpOk(Start(clock), ip, horizon)
  {
  }

  // ----- conservation

  function Counts(s: State, lo: int): string -> int {
    (ip: string) => |Keep(STAMP, Stamps(s, ip), lo)|
  }

  /**
   * Conservation: in every reachable state, prunes included, the minute counts of the addresses
   * still held add up to the global minute count.
   */
  lemma MinuteCountsAddUp(cfg: Config, clock: int, ops: seq<Op>, now: int)
    requires Timely(ops, clock) && Remembers(cfg, ops, MINUTE) && Run(cfg, Start(clock), ops).clock <= now
    ensures var s := Run(cfg, Start(clock), ops).state;
            SumOver(s.windows.Keys, Counts(s, now - MINUTE)) == |Keep(STAMP, s.global, now - MINUTE)|
  {
    var w := Run(cfg, Start(clock), ops);
    var s, lo := w.state, now - MINUTE;
    StartOk(clock, "", MINUTE);
    RunOk(cfg, Start(clock), ops, "", MINUTE);
    forall ip
      ensures Counts(s, lo)(ip) == Share(w.log, lo)(ip)
    {
      StartOk(clock, ip, MINUTE);
      RunOk(cfg, Start(clock), ops, ip, MINUTE);
      assert SameCount(Stamps(s, ip), Of(ip), w.log, lo);
      KeptCount(Stamps(s, ip), lo);
    }
    forall i | 0 <= i < |w.log|
      ensures w.log[i].who !in s.windows.Keys ==> SumAfter(Of(w.log[i].who), w.log, lo) == 0
    {
      assert Counts(s, lo)(w.log[i].who) == Share(w.log, lo)(w.log[i].who);
    }
    SumOverSame(s.windows.Keys, Counts(s, lo), Share(w.log, lo));
    SharesAddUp(s.windows.Keys, w.log, lo);
    assert SameCount(s.global, TOTAL, w.log, lo);
    KeptCount(s.global, lo);
  }

  // ----- limits over every window

  predicate GlobalWithin(cfg: Config, log: seq<Item>) {
    Guarded(TOTAL, log, MINUTE, cfg.globalRpm) && Guarded(TOTAL, log, DAY, cfg.globalRpd)
  }

  predicate LogWithin(cfg: Config, log: seq<Item>, ip: string) {
    GlobalWithin(cfg, log) && Guarded(Of(ip), log, MINUTE, cfg.ipRpm)
  }

  /** One more request fits a limit that its list of timestamps has room for. */
  lemma CountedFits(ts: seq<int>, l: Lens<Item>, log: seq<Item>, item: Item, width: int, limit: int)
    requires SameCount(ts, l, log, item.time - width) && Guarded(l, log, width, limit)
    requires l.time(item) == item.time && l.weight(item) <= 1
    requires l.weight(item) > 0 ==> |Keep(STAMP, ts, item.time - width)| < limit
    ensures Guarded(l, log + [item], width, limit)
  {
    KeptCount(ts, item.time - width);
  }

  lemma AllowedHasRoom(cfg: Config, s: State, ip: string, now: int)
    requires Check(cfg, s, ip, now).verdict.Allowed?
    ensures |Keep(STAMP, s.global, now - MINUTE)| < cfg.globalRpm && |Keep(STAMP, s.global, now - DAY)| < cfg.globalRpd
    ensures |Keep(STAMP, Stamps(s, ip), now - MINUTE)| < cfg.ipRpm
    ensures |Keep(STAMP, Stamps(s, ip), now - DAY)| < cfg.ipRpd
  {
    KeepTwice(STAMP, Stamps(s, ip), now - DAY, now - MINUTE);
  }

  lemma AllowedFitsGlobal(cfg: Config, w: World, op: Op)
    requires GlobalOk(w) && w.clock <= op.now && op.Record? && GlobalWithin(cfg, w.log)
    requires Check(cfg, w.state, op.ip, op.now).verdict.Allowed?
    ensures GlobalWithin(cfg, w.log + [Item(op.now, op.ip, 1)])
  {
    var item := Item(op.now, op.ip, 1);
    AllowedHasRoom(cfg, w.state, op.ip, op.now);
    CountedFits(w.state.global, TOTAL, w.log, item, MINUTE, cfg.globalRpm);
    CountedFits(w.state.global, TOTAL, w.log, item, DAY, cfg.globalRpd);
  }

  lemma AllowedFits(cfg: Config, w: World, op: Op, ip: string)
    requires GlobalOk(w) && IpOk(w, ip, MINUTE) && w.clock <= op.now && op.Record?
    requires Check(cfg, w.state, op.ip, op.now).verdict.Allowed? && LogWithin(cfg, w.log, ip)
    ensures LogWithin(cfg, w.log + [Item(op.now, op.ip, 1)], ip)
  {
    AllowedFitsGlobal(cfg, w, op);
    AllowedHasRoom(cfg, w.state, op.ip, op.now);
    CountedFits(Stamps(w.state, ip), Of(ip), w.log, Item(op.now, op.ip, 1), MINUTE, cfg.ipRpm);
  }

  lemma {:induction false} RunGlobalWithin(cfg: Config, w: World, ops: seq<Op>)
    requires GlobalOk(w) && Timely(ops, w.clock) && GlobalWithin(cfg, w.log)
    ensures GlobalOk(Run(cfg, w, ops)) && GlobalWithin(cfg, Run(cfg, w, ops).log)
    decreases |ops|
  {
    if ops != [] {
      StepGlobalOk(cfg, w, ops[0]);
      if ops[0].Record? && Check(cfg, w.state, ops[0].ip, ops[0].now).verdict.Allowed? {
        AllowedFitsGlobal(cfg, w, ops[0]);
      }
      RunGlobalWithin(cfg, Apply(cfg, w, ops[0]), ops[1..]);
    }
  }

  lemma {:induction false} RunWithin(cfg: Config, w: World, ops: seq<Op>, ip: string)
    requires GlobalOk(w) && IpOk(w, ip, MINUTE) && Timely(ops, w.clock) && Remembers(cfg, ops, MINUTE)
    requires LogWithin(cfg, w.log, ip)
    ensures LogWithin(cfg, Run(cfg, w, ops).log, ip)
    decreases |ops|
  {
    if ops != [] {
      StepGlobalOk(cfg, w, ops[0]);
      assert ops[0].Prune? ==> MINUTE - 1 <= cfg.stalePruneMs;
      StepIpOk(cfg, w, ops[0], ip, MINUTE);
      if ops[0].Record? && Check(cfg, w.state, ops[0].ip, ops[0].now).verdict.Allowed? {
        AllowedFits(cfg, w, ops[0], ip);
      }
      RunWithin(cfg, Apply(cfg, w, ops[0]), ops[1..], ip);
    }
  }

  lemma WindowsOf(log: seq<Item>, l: Lens<Item>, now: int, width: int, limit: int, a: int)
    requires Ordered(TOTAL, log, now) && l.time == TOTAL.time && NonNegative(l, log) && Guarded(l, log, width, limit)
    ensures SumWithin(l, log, a, a + width) <= AtLeastZero(limit)
  {
    EveryWindow(l, log, width, limit, a);
  }

  lemma GlobalWindowsOf(cfg: Config, w: World, a: int)
    requires GlobalOk(w) && GlobalWithin(cfg, w.log)
    ensures SumWithin(TOTAL, w.log, a, a + MINUTE) <= AtLeastZero(cfg.globalRpm)
    ensures SumWithin(TOTAL, w.log, a, a + DAY) <= AtLeastZero(cfg.globalRpd)
  {
    WindowsOf(w.log, TOTAL, w.clock, MINUTE, cfg.globalRpm, a);
    WindowsOf(w.log, TOTAL, w.clock, DAY, cfg.globalRpd, a);
  }

  lemma AddressWindowsOf(cfg: Config, w: World, ip: string, a: int)
    requires GlobalOk(w) && LogWithin(cfg, w.log, ip)
    ensures SumWithin(Of(ip), w.log, a, a + MINUTE) <= AtLeastZero(cfg.ipRpm)
  {
    WindowsOf(w.log, Of(ip), w.clock, MINUTE, cfg.ipRpm, a);
  }

  /**
   * In every run, whatever its prunes, every minute and every day window respects the global limit,
   * and when prunes spare at least a minute, every minute window that of each address too.
   */
  lemma EveryWindowWithinDemoLimits(cfg: Config, clock: int, ops: seq<Op>, ip: string, a: int)
    requires Timely(ops, clock)
    ensures var log := Run(cfg, Start(clock), ops).log;
            && SumWithin(TOTAL, log, a, a + MINUTE) <= AtLeastZero(cfg.globalRpm)
            && SumWithin(TOTAL, log, a, a + DAY) <= AtLeastZero(cfg.globalRpd)
            && (Remembers(cfg, ops, MINUTE) ==> SumWithin(Of(ip), log, a, a + MINUTE) <= AtLeastZero(cfg.ipRpm))
  {
    StartOk(clock, ip, MINUTE);
    RunGlobalWithin(cfg, Start(clock), ops);
    GlobalWindowsOf(cfg, Run(cfg, Start(clock), ops), a);
    if Remembers(cfg, ops, MINUTE) {
      RunWithin(cfg, Start(clock), ops, ip);
      AddressWindowsOf(cfg, Run(cfg, Start(clock), ops), ip, a);
    }
  }

  /** At the deployed limits: five a minute and twenty a day for all, one a minute for each address. */
  lemma DeployedLimits(clock: int, ops: seq<Op>, ip: string, a: int)
    requires Timely(ops, clock)
    ensures var log := Run(SHIPPED, Start(clock), ops).log;
            && SumWithin(TOTAL, log, a, a + 60000) <= 5
            && SumWithin(TOTAL, log, a, a + 86400000) <= 20
            && SumWithin(Of(ip), log, a, a + 60000) <= 1
  {
    EveryWindowWithinDemoLimits(SHIPPED, clock, ops, ip, a);
  }

  // ----- the daily limit of one address

  lemma {:induction false} RunWithinDay(cfg: Config, w: World, ops: seq<Op>, ip: string)
    requires GlobalOk(w) && IpOk(w, ip, DAY) && Timely(ops, w.clock) && Remembers(cfg, ops, DAY)
    requires Guarded(Of(ip), w.log, DAY, cfg.ipRpd)
    ensures Guarded(Of(ip), Run(cfg, w, ops).log, DAY, cfg.ipRpd)
    decreases |ops|
  {
    if ops != [] {
      var op := ops[0];
      StepGlobalOk(cfg, w, op);
      assert ops[0].Prune? ==> DAY - 1 <= cfg.stalePruneMs;
      StepIpOk(cfg, w, op, ip, DAY);
      if op.Record? && Check(cfg, w.state, op.ip, op.now).verdict.Allowed? {
        AllowedHasRoom(cfg, w.state, op.ip, op.now);
        CountedFits(Stamps(w.state, ip), Of(ip), w.log, Item(op.now, op.ip, 1), DAY, cfg.ipRpd);
      }
      RunWithinDay(cfg, Apply(cfg, w, op), ops[1..], ip);
    }
  }

  /** The daily limit of an address holds in every run when prunes spare a day less a millisecond. */
  lemma DailyIpLimit(cfg: Config, clock: int, ops: seq<Op>, ip: string, a: int)
    requires Timely(ops, clock) && Remembers(cfg, ops, DAY)
    ensures SumWithin(Of(ip), Run(cfg, Start(clock), ops).log, a, a + DAY) <= AtLeastZero(cfg.ipRpd)
  {
    var w := Run(cfg, Start(clock), ops);
    StartOk(clock, ip, DAY);
    RunOk(cfg, Start(clock), ops, ip, DAY);
    RunWithinDay(cfg, Start(clock), ops, ip);
    WindowsOf(w.log, Of(ip), w.clock, DAY, cfg.ipRpd, a);
  }

  // ----- the reported counts

  lemma CountsTold(cfg: Config, s: State, ip: string, now: int)
    ensures var r := Check(cfg, s, ip, now);
            && r.currentRpm == SumAfter(STAMP, Stamps(s, ip), now - 60000)
            && r.currentRpd == SumAfter(STAMP, Stamps(s, ip), now - 86400000)
            && r.globalRpm == SumAfter(STAMP, s.global, now - 60000)
  {
    var day := Keep(STAMP, Stamps(s, ip), now - DAY);
    DecidedCounts(cfg, Keep(STAMP, day, now - MINUTE), day, Keep(STAMP, s.global, now - MINUTE),
                  Keep(STAMP, s.global, now - DAY), now);
    KeepTwice(STAMP, Stamps(s, ip), now - DAY, now - MINUTE);
    KeptCount(Stamps(s, ip), now - MINUTE);
    KeptCount(Stamps(s, ip), now - DAY);
    KeptCount(s.global, now - MINUTE);
  }

  /**
   * The counts a check reports are those of the log: the global one of the last minute in every run,
   * the address's of the last minute and day when prunes spare as much.
   */
  lemma CountsFollowLog(cfg: Config, clock: int, ops: seq<Op>, ip: string, now: int)
    requires Timely(ops, clock) && Run(cfg, Start(clock), ops).clock <= now
    ensures var w := Run(cfg, Start(clock), ops);
            var r := Check(cfg, w.state, ip, now);
            && r.globalRpm == SumAfter(TOTAL, w.log, now - 60000)
            && (Remembers(cfg, ops, MINUTE) ==> r.currentRpm == SumAfter(Of(ip), w.log, now - 60000))
            && (Remembers(cfg, ops, DAY) ==> r.currentRpd == SumAfter(Of(ip), w.log, now - 86400000))
  {
    var w := Run(cfg, Start(clock), ops);
    CountsTold(cfg, w.state, ip, now);
    StartOk(clock, ip, MINUTE);
    StartOk(clock, ip, DAY);
    RunGlobalWithin(cfg, Start(clock), ops);
    assert SameCount(w.state.global, TOTAL, w.log, now - 60000);
    if Remembers(cfg, ops, MINUTE) {
      RunOk(cfg, Start(clock), ops, ip, MINUTE);
      assert SameCount(Stamps(w.state, ip), Of(ip), w.log, now - 60000);
    }
    if Remembers(cfg, ops, DAY) {
      RunOk(cfg, Start(clock), ops, ip, DAY);
      assert SameCount(Stamps(w.state, ip), Of(ip), w.log, now - 86400000);
    }
  }

  lemma DecidedCounts(cfg: Config, minute: seq<int>, day: seq<int>, global: seq<int>, globalDay: seq<int>, now: int)
    ensures var r := Decide(cfg, minute, day, global, globalDay, now);
            r.currentRpm == |minute| && r.currentRpd == |day| && r.globalRpm == |global|
  {
  }

  lemma RecordedStamps(cfg: Config, s: State, ip: string, now: int)
    requires Check(cfg, s, ip, now).verdict.Allowed?
    ensures Stamps(RecordStep(cfg, s, ip, now), ip) == Keep(STAMP, Stamps(s, ip), now - DAY) + [now]
  {
  }

  /** An admitted request reports one more of its address, in the minute and in the day, than the check before it. */
  lemma AdmittedCounts(cfg: Config, s: State, ip: string, now: int)
    requires Check(cfg, s, ip, now).verdict.Allowed?
    ensures var before, after := Check(cfg, s, ip, now), Report(RecordStep(cfg, s, ip, now), ip, now);
            && after.verdict.Allowed? && after.retryAfter.None?
            && after.currentRpm == before.currentRpm + 1 && after.currentRpd == before.currentRpd + 1
  {
    var day := Keep(STAMP, Stamps(s, ip), now - DAY);
    DecidedCounts(cfg, Keep(STAMP, day, now - MINUTE), day, Keep(STAMP, s.global, now - MINUTE),
                  Keep(STAMP, s.global, now - DAY), now);
    RecordedStamps(cfg, s, ip, now);
    KeepSnoc(STAMP, day, now, now - MINUTE);
  }

  // ----- the reported global count

  lemma AdmittedGlobal(cfg: Config, w: World, ip: string, now: int)
    requires GlobalOk(w) && w.clock <= now && Check(cfg, w.state, ip, now).verdict.Allowed?
    ensures var s := RecordStep(cfg, w.state, ip, now);
            && |s.global| == SumAfter(TOTAL, w.log, now - DAY) + 1
            && |Keep(STAMP, s.global, now - MINUTE)| == SumAfter(TOTAL, w.log, now - MINUTE) + 1
  {
    var kept := Keep(STAMP, w.state.global, now - DAY);
    assert SameCount(w.state.global, TOTAL, w.log, now - DAY) && SameCount(w.state.global, TOTAL, w.log, now - MINUTE);
    KeptCount(w.state.global, now - DAY);
    KeptCount(kept + [now], now - MINUTE);
    SumAfterSnoc(STAMP, kept, now, now - MINUTE);
    KeepSums(STAMP, STAMP, w.state.global, now - DAY, now - MINUTE);
  }

  lemma ReportedMinuteAt(cfg: Config, w: World, ip: string, now: int)
    requires GlobalOk(w) && w.clock <= now && Check(cfg, w.state, ip, now).verdict.Allowed?
    ensures var s := RecordStep(cfg, w.state, ip, now);
            Report(s, ip, now).globalRpm == |Keep(STAMP, s.global, now - MINUTE)|
            <==> SumWithin(TOTAL, w.log, now - DAY, now - MINUTE) == 0
  {
    AdmittedGlobal(cfg, w, ip, now);
    SumAfterSplits(TOTAL, w.log, now - DAY, now - MINUTE);
  }

  /**
   * The global count that an admitted request reports is the one of the last minute exactly when the
   * pool admitted nothing in the day before that minute.
   */
  lemma ReportedMinuteExactly(cfg: Config, clock: int, ops: seq<Op>, ip: string, now: int)
    requires Timely(ops, clock) && Run(cfg, Start(clock), ops).clock <= now
    requires Check(cfg, Run(cfg, Start(clock), ops).state, ip, now).verdict.Allowed?
    ensures var w := Run(cfg, Start(clock), ops);
            var s := RecordStep(cfg, w.state, ip, now);
            Report(s, ip, now).globalRpm == |Keep(STAMP, s.global, now - MINUTE)|
            <==> SumWithin(TOTAL, w.log, now - DAY, now - MINUTE) == 0
  {
    StartOk(clock, ip, MINUTE);
    RunGlobalWithin(cfg, Start(clock), ops);
    ReportedMinuteAt(cfg, Run(cfg, Start(clock), ops), ip, now);
  }

  lemma TwoRecords(cfg: Config, w: World, a: Op, b: Op)
    ensures Run(cfg, w, [a, b]) == Apply(cfg, Apply(cfg, w, a), b)
  {
    assert [a, b][1..] == [b] && [b][1..] == [];
    assert Run(cfg, Apply(cfg, w, a), [b]) == Run(cfg, Apply(cfg, Apply(cfg, w, a), b), []);
  }

  lemma FirstOfTwo()
    ensures var s := Apply(SHIPPED, Start(0), Record("a", 0)).state;
            s.global == [0] && Stamps(s, "b") == []
  {
    assert Keep(STAMP, [], 0 - DAY) == [];
  }

  lemma SecondOfTwo(s: State)
    requires s.global == [0] && Stamps(s, "b") == []
    ensures Check(SHIPPED, s, "b", 60000).verdict.Allowed?
    ensures RecordStep(SHIPPED, s, "b", 60000).global == [0, 60000]
  {
    assert Keep(STAMP, [0], 0) == [] && Keep(STAMP, [0], 60000 - DAY) == [0];
  }

  /** At the deployed limits, the second of two requests a minute apart is reported as the second of its minute. */
  lemma ReportedMinuteFails()
    ensures var s := Run(SHIPPED, Start(0), [Record("a", 0), Record("b", 60000)]).state;
            Report(s, "b", 60000).globalRpm == 2 && |Keep(STAMP, s.global, 60000 - MINUTE)| == 1
  {
    TwoRecords(SHIPPED, Start(0), Record("a", 0), Record("b", 60000));
    FirstOfTwo();
    SecondOfTwo(Apply(SHIPPED, Start(0), Record("a", 0)).state);
    assert [0, 60000][..1] == [0];
    assert Keep(STAMP, [0], 0) == [];
  }
}
