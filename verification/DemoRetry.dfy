/**
 * The demo sandbox's retry-after is the least wait that helps, as long as no prune forgets the
 * address (src/auth/demo/sandbox.ts:123-276).
 */
module DemoRetry {
  import opened Text
  import opened Windows
  import opened DemoSandbox
  import opened DemoRuns

  // ----- one list of timestamps

  function Count(ts: seq<int>, width: int, now: int): (n: nat) { |Keep(STAMP, ts, now - width)| }

  lemma CountOfActive(ts: seq<int>, width: int, now: int, t: int)
    requires now <= t
    ensures Count(ts, width, t) == SumAfter(STAMP, Keep(STAMP, ts, now - width), t - width)
  {
    KeepSums(STAMP, STAMP, ts, now - width, t - width);
    KeptCount(ts, t - width);
  }

  lemma FirstKept(ts: seq<int>, cutoff: int, now: int)
    requires Ordered(STAMP, ts, now) && Keep(STAMP, ts, cutoff) != []
    ensures var kept := Keep(STAMP, ts, cutoff);
            cutoff < kept[0] <= now && forall i | 0 <= i < |kept| :: kept[0] <= STAMP.time(kept[i])
  {
    var kept := Keep(STAMP, ts, cutoff);
    KeepOrdered(STAMP, ts, cutoff, now);
    assert cutoff < STAMP.time(kept[0]) by {
      KeepMembers(STAMP, ts, cutoff);
      assert kept[0] in kept;
    }
    assert forall i | 0 < i < |kept| :: STAMP.time(kept[0]) <= STAMP.time(kept[i]);
  }

  lemma OldestActive(ts: seq<int>, width: int, now: int, s: int)
    requires Ordered(STAMP, ts, now) && Wait(Keep(STAMP, ts, now - width), width, now) == Some(s)
    ensures var active := Keep(STAMP, ts, now - width);
            && active != [] && now - width < active[0]
            && now + 1000 * (s - 1) < active[0] + width <= now + 1000 * s
            && (forall i | 0 <= i < |active| :: active[0] <= STAMP.time(active[i]))
  {
    FirstKept(ts, now - width, now);
  }

  /** The count over a window is what it is up to s - 1 seconds on, and has fallen from s seconds on. */
  lemma WaitIsLeast(ts: seq<int>, width: int, now: int, t: int, s: int)
    requires Ordered(STAMP, ts, now) && now <= t && Wait(Keep(STAMP, ts, now - width), width, now) == Some(s)
    ensures t <= now + 1000 * (s - 1) ==> Count(ts, width, t) == Count(ts, width, now)
    ensures t >= now + 1000 * s ==> Count(ts, width, t) < Count(ts, width, now)
  {
    var active := Keep(STAMP, ts, now - width);
    OldestActive(ts, width, now, s);
    CountOfActive(ts, width, now, now);
    CountOfActive(ts, width, now, t);
    if t <= now + 1000 * (s - 1) {
      SumAfterGap(STAMP, active, now - width, t - width);
    }
    if t >= now + 1000 * s {
      SumAfterDrops(STAMP, active, 0, now - width, t - width);
    }
  }

  // ----- one state

  /** What a verdict is about: a list of timestamps, the length of its window, and its limit. */
  function About(cfg: Config, s: State, ip: string, verdict: Verdict): (seq<int>, int, int) {
    match verdict
    case IpRpmExceeded => (Stamps(s, ip), MINUTE, cfg.ipRpm)
    case IpRpdExceeded => (Stamps(s, ip), DAY, cfg.ipRpd)
    case GlobalRpmExceeded => (s.global, MINUTE, cfg.globalRpm)
    case GlobalRpdExceeded => (s.global, DAY, cfg.globalRpd)
    case Allowed => ([], 0, 1)
  }

  predicate Full(cfg: Config, s: State, ip: string, verdict: Verdict, now: int) {
    var (ts, width, limit) := About(cfg, s, ip, verdict);
    Count(ts, width, now) >= limit
  }

  lemma DecidedByFirstFull(cfg: Config, minute: seq<int>, day: seq<int>, global: seq<int>, globalDay: seq<int>,
                           now: int)
    ensures var v := Decide(cfg, minute, day, global, globalDay, now).verdict;
            var (a, b, c, d) := (|minute| >= cfg.ipRpm, |day| >= cfg.ipRpd, |global| >= cfg.globalRpm,
                                 |globalDay| >= cfg.globalRpd);
            && (v.IpRpmExceeded? <==> a) && (v.IpRpdExceeded? <==> !a && b)
            && (v.GlobalRpmExceeded? <==> !a && !b && c) && (v.GlobalRpdExceeded? <==> !a && !b && !c && d)
            && (v.Allowed? <==> !a && !b && !c && !d)
  {
  }

  /** A request is refused for the first of the four windows that is full. */
  lemma VerdictIsFirstFull(cfg: Config, s: State, ip: string, now: int)
    ensures var r := Check(cfg, s, ip, now);
            var full := (v: Verdict) => Full(cfg, s, ip, v, now);
            && (r.verdict.IpRpmExceeded? <==> full(IpRpmExceeded))
            && (r.verdict.IpRpdExceeded? <==> !full(IpRpmExceeded) && full(IpRpdExceeded))
            && (r.verdict.GlobalRpmExceeded? <==>
                  !full(IpRpmExceeded) && !full(IpRpdExceeded) && full(GlobalRpmExceeded))
            && (r.verdict.GlobalRpdExceeded? <==>
                  !full(IpRpmExceeded) && !full(IpRpdExceeded) && !full(GlobalRpmExceeded) && full(GlobalRpdExceeded))
            && (r.verdict.Allowed? <==>
                  !full(IpRpmExceeded) && !full(IpRpdExceeded) && !full(GlobalRpmExceeded) && !full(GlobalRpdExceeded))
  {
    var day := Keep(STAMP, Stamps(s, ip), now - DAY);
    DecidedByFirstFull(cfg, Keep(STAMP, day, now - MINUTE), day, Keep(STAMP, s.global, now - MINUTE),
                       Keep(STAMP, s.global, now - DAY), now);
    KeepTwice(STAMP, Stamps(s, ip), now - DAY, now - MINUTE);
  }

  lemma RefusedIsFull(cfg: Config, s: State, ip: string, now: int)
    requires !Check(cfg, s, ip, now).verdict.Allowed?
    ensures Full(cfg, s, ip, Check(cfg, s, ip, now).verdict, now)
  {
    VerdictIsFirstFull(cfg, s, ip, now);
  }

  lemma WaitNamed(cfg: Config, s: State, ip: string, now: int)
    requires !Check(cfg, s, ip, now).verdict.Allowed?
    ensures var r := Check(cfg, s, ip, now);
            var (ts, width, _) := About(cfg, s, ip, r.verdict);
            r.retryAfter == Wait(Keep(STAMP, ts, now - width), width, now)
  {
    var day := Keep(STAMP, Stamps(s, ip), now - DAY);
    DecidedWait(cfg, Keep(STAMP, day, now - MINUTE), day, Keep(STAMP, s.global, now - MINUTE),
                Keep(STAMP, s.global, now - DAY), now);
    KeepTwice(STAMP, Stamps(s, ip), now - DAY, now - MINUTE);
  }

  lemma DecidedWait(cfg: Config, minute: seq<int>, day: seq<int>, global: seq<int>, globalDay: seq<int>, now: int)
    ensures var r := Decide(cfg, minute, day, global, globalDay, now);
            match r.verdict
            case IpRpmExceeded => r.retryAfter == Wait(minute, MINUTE, now)
            case IpRpdExceeded => r.retryAfter == Wait(day, DAY, now)
            case GlobalRpmExceeded => r.retryAfter == Wait(global, MINUTE, now)
            case GlobalRpdExceeded => r.retryAfter == Wait(globalDay, DAY, now)
            case Allowed => r.retryAfter == None
  {
  }

  lemma FullEarlier(cfg: Config, s: State, ip: string, verdict: Verdict, now: int, t: int)
    requires now <= t && Full(cfg, s, ip, verdict, t)
    ensures Full(cfg, s, ip, verdict, now)
  {
    var (ts, width, limit) := About(cfg, s, ip, verdict);
    KeptCount(ts, now - width);
    KeptCount(ts, t - width);
    SumAfterShrinks(STAMP, ts, now - width, t - width);
  }

  predicate InOrder(s: State, ip: string, now: int) {
    Ordered(STAMP, s.global, now) && Ordered(STAMP, Stamps(s, ip), now)
  }

  // ----- every reachable state

  lemma KeptInOrder(ts: seq<int>, cutoff: int, before: int, now: int)
    requires Ordered(STAMP, ts, before) && before <= now
    ensures Ordered(STAMP, ts, now) && Ordered(STAMP, Keep(STAMP, ts, cutoff) + [now], now)
  {
    KeepOrdered(STAMP, ts, cutoff, now);
  }

  lemma StepInOrder(cfg: Config, w: World, op: Op, ip: string)
    requires InOrder(w.state, ip, w.clock) && w.clock <= op.now
    ensures InOrder(Apply(cfg, w, op).state, ip, op.now)
  {
    KeptInOrder(w.state.global, op.now - DAY, w.clock, op.now);
    KeptInOrder(Stamps(w.state, ip), op.now - DAY, w.clock, op.now);
  }

  lemma {:induction false} RunInOrder(cfg: Config, w: World, ops: seq<Op>, ip: string)
    requires InOrder(w.state, ip, w.clock) && Timely(ops, w.clock)
    ensures InOrder(Run(cfg, w, ops).state, ip, Run(cfg, w, ops).clock)
    decreases |ops|
  {
    if ops != [] {
      StepInOrder(cfg, w, ops[0], ip);
      RunInOrder(cfg, Apply(cfg, w, ops[0]), ops[1..], ip);
    }
  }

  /** The window of a verdict holds no more than its limit. */
  predicate Fits(cfg: Config, s: State, ip: string, verdict: Verdict, now: int) {
    var (ts, width, limit) := About(cfg, s, ip, verdict);
    Count(ts, width, now) <= AtLeastZero(limit)
  }

  lemma CountShrinks(ts: seq<int>, width: int, now: int, t: int)
    requires now <= t
    ensures Count(ts, width, t) <= Count(ts, width, now)
  {
    KeptCount(ts, now - width);
    KeptCount(ts, t - width);
    SumAfterShrinks(STAMP, ts, now - width, t - width);
  }

  lemma FitsLater(cfg: Config, s: State, ip: string, verdict: Verdict, now: int, t: int)
    requires Fits(cfg, s, ip, verdict, now) && now <= t
    ensures Fits(cfg, s, ip, verdict, t)
  {
    var (ts, width, _) := About(cfg, s, ip, verdict);
    CountShrinks(ts, width, now, t);
  }

  lemma RoomForOne(ts: seq<int>, width: int, limit: int, now: int)
    requires width <= DAY && Count(ts, width, now) < limit
    ensures Count(Keep(STAMP, ts, now - DAY) + [now], width, now) <= AtLeastZero(limit)
  {
    KeepTwice(STAMP, ts, now - DAY, now - width);
    KeepSnoc(STAMP, Keep(STAMP, ts, now - DAY), now, now - width);
  }

  lemma RecordedLists(cfg: Config, s: State, who: string, ip: string, now: int)
    requires Check(cfg, s, who, now).verdict.Allowed?
    ensures var next := RecordStep(cfg, s, who, now);
            && next.global == Keep(STAMP, s.global, now - DAY) + [now]
            && Stamps(next, ip) == if ip == who then Keep(STAMP, Stamps(s, ip), now - DAY) + [now] else Stamps(s, ip)
  {
  }

  lemma AdmittedFits(cfg: Config, s: State, who: string, ip: string, verdict: Verdict, now: int)
    requires Fits(cfg, s, ip, verdict, now) && Check(cfg, s, who, now).verdict.Allowed?
    ensures Fits(cfg, RecordStep(cfg, s, who, now), ip, verdict, now)
  {
    var (ts, width, limit) := About(cfg, s, ip, verdict);
    RecordedLists(cfg, s, who, ip, now);
    if !verdict.Allowed? && (OfAddress(verdict) ==> ip == who) {
      AllowedHasRoom(cfg, s, who, now);
      RoomForOne(ts, width, limit, now);
    }
  }

  lemma StepFits(cfg: Config, w: World, op: Op, ip: string, verdict: Verdict)
    requires Fits(cfg, w.state, ip, verdict, w.clock) && w.clock <= op.now
    ensures Fits(cfg, Apply(cfg, w, op).state, ip, verdict, op.now)
  {
    FitsLater(cfg, w.state, ip, verdict, w.clock, op.now);
    if Admits(cfg, w.state, op) {
      AdmittedFits(cfg, w.state, op.ip, ip, verdict, op.now);
    }
  }

  lemma {:induction false} RunFits(cfg: Config, w: World, ops: seq<Op>, ip: string, verdict: Verdict)
    requires Fits(cfg, w.state, ip, verdict, w.clock) && Timely(ops, w.clock)
    ensures Fits(cfg, Run(cfg, w, ops).state, ip, verdict, Run(cfg, w, ops).clock)
    decreases |ops|
  {
    if ops != [] {
      StepFits(cfg, w, ops[0], ip, verdict);
      RunFits(cfg, Apply(cfg, w, ops[0]), ops[1..], ip, verdict);
    }
  }

  lemma StartFits(cfg: Config, clock: int, ip: string, verdict: Verdict)
    ensures Fits(cfg, Start(clock).state, ip, verdict, clock)
  {
    var (ts, width, _) := About(cfg, Start(clock).state, ip, verdict);
    assert ts == [] && Keep(STAMP, ts, clock - width) == [];
  }

  /** In no reachable state, whatever prunes ran, a window holds more than its limit. */
  lemma ReachableFits(cfg: Config, clock: int, ops: seq<Op>, ip: string, verdict: Verdict, now: int)
    requires Timely(ops, clock) && Run(cfg, Start(clock), ops).clock <= now
    ensures Fits(cfg, Run(cfg, Start(clock), ops).state, ip, verdict, now)
  {
    var w := Run(cfg, Start(clock), ops);
    StartFits(cfg, clock, ip, verdict);
    RunFits(cfg, Start(clock), ops, ip, verdict);
    FitsLater(cfg, w.state, ip, verdict, w.clock, now);
  }

  /** Where a limit shuts an address's requests out, the address is never held. */
  lemma {:induction false} NeverHeld(cfg: Config, w: World, ops: seq<Op>, ip: string)
    requires (cfg.ipRpm <= 0 || cfg.ipRpd <= 0) && ip !in w.state.windows
    ensures ip !in Run(cfg, w, ops).state.windows
    decreases |ops|
  {
    if ops != [] {
      if Admits(cfg, w.state, ops[0]) {
        AllowedHasRoom(cfg, w.state, ops[0].ip, ops[0].now);
        assert false;
      }
      NeverHeld(cfg, Apply(cfg, w, ops[0]), ops[1..], ip);
    }
  }

  // ----- between a refusal and the next attempt

  predicate Admits(cfg: Config, s: State, op: Op) {
    op.Record? && Check(cfg, s, op.ip, op.now).verdict.Allowed?
  }

  predicate OfAddress(verdict: Verdict) { verdict.IpRpmExceeded? || verdict.IpRpdExceeded? }

  predicate Uncounted(cfg: Config, s: State, op: Op, ip: string, verdict: Verdict) {
    Admits(cfg, s, op) ==> OfAddress(verdict) && op.ip != ip
  }

  /** No request is admitted that the window of the verdict counts. */
  predicate Quiet(cfg: Config, w: World, ops: seq<Op>, ip: string, verdict: Verdict)
    decreases |ops|
  {
    || ops == []
    || (Uncounted(cfg, w.state, ops[0], ip, verdict) && Quiet(cfg, Apply(cfg, w, ops[0]), ops[1..], ip, verdict))
  }

  /** A prune at which the last request of the address is too old. */
  predicate FindsStale(cfg: Config, s: State, op: Op, ip: string) {
    op.Prune? && ip in s.windows && s.windows[ip].windowStart < op.now - cfg.stalePruneMs
  }

  predicate Forgotten(cfg: Config, s: State, ops: seq<Op>, ip: string) {
    exists i | 0 <= i < |ops| :: FindsStale(cfg, s, ops[i], ip)
  }

  /** What the verdict counted is what it was, or is forgotten. */
  predicate NothingNew(s: State, later: State, ip: string, verdict: Verdict) {
    && (ip in later.windows ==> ip in s.windows && later.windows[ip] == s.windows[ip])
    && (!OfAddress(verdict) ==> later.global == s.global)
  }

  /** What the verdict counted is what it was. */
  predicate Kept(s: State, later: State, ip: string, verdict: Verdict) {
    NothingNew(s, later, ip, verdict) && (OfAddress(verdict) && ip in s.windows ==> ip in later.windows)
  }

  lemma KeptFull(cfg: Config, s: State, later: State, ip: string, verdict: Verdict, t: int)
    requires Kept(s, later, ip, verdict) && !verdict.Allowed?
    ensures Full(cfg, later, ip, verdict, t) <==> Full(cfg, s, ip, verdict, t)
  {
  }

  lemma NotFullLater(cfg: Config, s: State, later: State, ip: string, of: Verdict, verdict: Verdict, now: int, t: int)
    requires NothingNew(s, later, ip, of) && (OfAddress(verdict) || !OfAddress(of)) && now <= t
    requires !Full(cfg, s, ip, verdict, now)
    ensures !Full(cfg, later, ip, verdict, t)
  {
    if Full(cfg, s, ip, verdict, t) {
      FullEarlier(cfg, s, ip, verdict, now, t);
    }
  }

  /** The refusal stays the same exactly as long as its window is full. */
  lemma SameWhileFull(cfg: Config, s: State, later: State, ip: string, now: int, t: int)
    requires now <= t && !Check(cfg, s, ip, now).verdict.Allowed?
    requires Kept(s, later, ip, Check(cfg, s, ip, now).verdict)
    ensures var v := Check(cfg, s, ip, now).verdict;
            Check(cfg, later, ip, t).verdict == v <==> Full(cfg, s, ip, v, t)
  {
    var v := Check(cfg, s, ip, now).verdict;
    VerdictIsFirstFull(cfg, s, ip, now);
    VerdictIsFirstFull(cfg, later, ip, t);
    KeptFull(cfg, s, later, ip, v, t);
    forall before: Verdict | !Full(cfg, s, ip, before, now) && (OfAddress(before) || !OfAddress(v))
      ensures !Full(cfg, later, ip, before, t)
    {
      NotFullLater(cfg, s, later, ip, v, before, now, t);
    }
  }

  /** While its window is full, the only step that can end a refusal is a prune that forgets the address. */
  lemma StepKept(cfg: Config, s: State, now: int, w: World, op: Op, ip: string)
    requires !Check(cfg, s, ip, now).verdict.Allowed? && now <= op.now
    requires var v := Check(cfg, s, ip, now).verdict;
             Kept(s, w.state, ip, v) && Full(cfg, s, ip, v, op.now) && !(OfAddress(v) && FindsStale(cfg, s, op, ip))
    ensures var v := Check(cfg, s, ip, now).verdict;
            Kept(s, Apply(cfg, w, op).state, ip, v) && Uncounted(cfg, w.state, op, ip, v)
  {
    var v := Check(cfg, s, ip, now).verdict;
    if Admits(cfg, w.state, op) {
      SameWhileFull(cfg, s, w.state, ip, now, op.now);
      VerdictIsFirstFull(cfg, w.state, op.ip, op.now);
      KeptFull(cfg, s, w.state, ip, v, op.now);
    }
  }

  lemma {:induction false} ClockGrows(cfg: Config, w: World, ops: seq<Op>)
    requires Timely(ops, w.clock)
    ensures w.clock <= Run(cfg, w, ops).clock
    decreases |ops|
  {
    if ops != [] {
      ClockGrows(cfg, Apply(cfg, w, ops[0]), ops[1..]);
    }
  }

  lemma {:induction false} RunKept(cfg: Config, s: State, now: int, w: World, ops: seq<Op>, ip: string, t: int)
    requires Timely(ops, w.clock) && now <= w.clock && Run(cfg, w, ops).clock <= t
    requires !Check(cfg, s, ip, now).verdict.Allowed?
    requires var v := Check(cfg, s, ip, now).verdict;
             Kept(s, w.state, ip, v) && Full(cfg, s, ip, v, t) && !(OfAddress(v) && Forgotten(cfg, s, ops, ip))
    ensures var v := Check(cfg, s, ip, now).verdict;
            Kept(s, Run(cfg, w, ops).state, ip, v) && Quiet(cfg, w, ops, ip, v)
    decreases |ops|
  {
    if ops != [] {
      var v, next := Check(cfg, s, ip, now).verdict, Apply(cfg, w, ops[0]);
      ClockGrows(cfg, next, ops[1..]);
      FullEarlier(cfg, s, ip, v, ops[0].now, t);
      assert OfAddress(v) ==> !FindsStale(cfg, s, ops[0], ip);
      StepKept(cfg, s, now, w, ops[0], ip);
      ForgottenTail(cfg, s, ops, ip);
      RunKept(cfg, s, now, next, ops[1..], ip, t);
    }
  }

  lemma ForgottenTail(cfg: Config, s: State, ops: seq<Op>, ip: string)
    requires ops != []
    ensures Forgotten(cfg, s, ops, ip) <==> FindsStale(cfg, s, ops[0], ip) || Forgotten(cfg, s, ops[1..], ip)
  {
    if Forgotten(cfg, s, ops[1..], ip) {
      var i :| 0 <= i < |ops[1..]| && FindsStale(cfg, s, ops[1..][i], ip);
      assert FindsStale(cfg, s, ops[i + 1], ip);
    }
    if Forgotten(cfg, s, ops, ip) && !FindsStale(cfg, s, ops[0], ip) {
      var i :| 0 <= i < |ops| && FindsStale(cfg, s, ops[i], ip);
      assert FindsStale(cfg, s, ops[1..][i - 1], ip);
    }
  }

  /** When nothing is counted on, a prune that finds the address stale forgets it for good. */
  lemma {:induction false} QuietRun(cfg: Config, s: State, w: World, ops: seq<Op>, ip: string, verdict: Verdict)
    requires NothingNew(s, w.state, ip, verdict) && Quiet(cfg, w, ops, ip, verdict)
    ensures NothingNew(s, Run(cfg, w, ops).state, ip, verdict)
    ensures ip !in w.state.windows || Forgotten(cfg, s, ops, ip) ==> ip !in Run(cfg, w, ops).state.windows
    decreases |ops|
  {
    if ops != [] {
      ForgottenTail(cfg, s, ops, ip);
      QuietRun(cfg, s, Apply(cfg, w, ops[0]), ops[1..], ip, verdict);
    }
  }

  // ----- what the named wait is worth

  /** A run, a request at `now`, what happens after it, and the same request again at t. */
  datatype Visit = Visit(clock: int, ops: seq<Op>, ip: string, now: int, between: seq<Op>, t: int)

  function Before(cfg: Config, v: Visit): World { Run(cfg, Start(v.clock), v.ops).(clock := v.now) }

  function After(cfg: Config, v: Visit): World { Run(cfg, Before(cfg, v), v.between) }

  function First(cfg: Config, v: Visit): Result { Check(cfg, Before(cfg, v).state, v.ip, v.now) }

  function Again(cfg: Config, v: Visit): Result { Check(cfg, After(cfg, v).state, v.ip, v.t) }

  /** A possible course of events in which the first request is refused. */
  predicate Refused(cfg: Config, v: Visit) {
    && Timely(v.ops, v.clock) && Run(cfg, Start(v.clock), v.ops).clock <= v.now
    && Timely(v.between, v.now) && After(cfg, v).clock <= v.t
    && !First(cfg, v).verdict.Allowed?
  }

  predicate QuietSince(cfg: Config, v: Visit) {
    Quiet(cfg, Before(cfg, v), v.between, v.ip, First(cfg, v).verdict)
  }

  /** A window of the address itself was full, and a prune since then forgot the address. */
  predicate ForgottenSince(cfg: Config, v: Visit) {
    OfAddress(First(cfg, v).verdict) && Forgotten(cfg, Before(cfg, v).state, v.between, v.ip)
  }

  lemma RefusedInOrder(cfg: Config, v: Visit)
    requires Refused(cfg, v)
    ensures InOrder(Before(cfg, v).state, v.ip, v.now) && v.now <= v.t
  {
    RunInOrder(cfg, Start(v.clock), v.ops, v.ip);
    ClockGrows(cfg, Before(cfg, v), v.between);
  }

  lemma RefusedFits(cfg: Config, v: Visit)
    requires Refused(cfg, v)
    ensures Fits(cfg, Before(cfg, v).state, v.ip, First(cfg, v).verdict, v.now)
  {
    ReachableFits(cfg, v.clock, v.ops, v.ip, First(cfg, v).verdict, v.now);
  }

  /** As long as the window that was full would still be, the refusal recurs unless the address was forgotten. */
  lemma RecursWhileFull(cfg: Config, v: Visit)
    requires Refused(cfg, v) && !ForgottenSince(cfg, v)
    requires Full(cfg, Before(cfg, v).state, v.ip, First(cfg, v).verdict, v.t)
    ensures Again(cfg, v).verdict == First(cfg, v).verdict && QuietSince(cfg, v)
  {
    var s := Before(cfg, v).state;
    ClockGrows(cfg, Before(cfg, v), v.between);
    RunKept(cfg, s, v.now, Before(cfg, v), v.between, v.ip, v.t);
    SameWhileFull(cfg, s, After(cfg, v).state, v.ip, v.now, v.t);
  }

  lemma WaitOfFull(cfg: Config, s: State, ip: string, now: int)
    requires !Check(cfg, s, ip, now).verdict.Allowed? && Check(cfg, s, ip, now).retryAfter.Some?
    ensures var r := Check(cfg, s, ip, now);
            var (ts, width, limit) := About(cfg, s, ip, r.verdict);
            && r.retryAfter == Wait(Keep(STAMP, ts, now - width), width, now)
            && Count(ts, width, now) >= limit && Count(ts, width, now) >= 1
  {
    WaitNamed(cfg, s, ip, now);
    RefusedIsFull(cfg, s, ip, now);
  }

  /** The window of a refusal by its wait: full up to a second before it is over, and not after. */
  lemma WaitTellsFull(cfg: Config, s: State, ip: string, now: int, t: int)
    requires InOrder(s, ip, now) && now <= t && Fits(cfg, s, ip, Check(cfg, s, ip, now).verdict, now)
    requires !Check(cfg, s, ip, now).verdict.Allowed? && Check(cfg, s, ip, now).retryAfter.Some?
    ensures var r := Check(cfg, s, ip, now);
            && About(cfg, s, ip, r.verdict).2 >= 1
            && (t <= now + 1000 * (r.retryAfter.value - 1) ==> Full(cfg, s, ip, r.verdict, t))
            && (t >= now + 1000 * r.retryAfter.value ==> !Full(cfg, s, ip, r.verdict, t))
  {
    var (ts, width, _) := About(cfg, s, ip, Check(cfg, s, ip, now).verdict);
    WaitOfFull(cfg, s, ip, now);
    WaitIsLeast(ts, width, now, t, Check(cfg, s, ip, now).retryAfter.value);
  }

  lemma EndsWhenNotFull(cfg: Config, v: Visit)
    requires Refused(cfg, v) && QuietSince(cfg, v) && First(cfg, v).retryAfter.Some?
    requires ForgottenSince(cfg, v) || !Full(cfg, Before(cfg, v).state, v.ip, First(cfg, v).verdict, v.t)
    ensures Again(cfg, v).verdict != First(cfg, v).verdict
  {
    RefusedInOrder(cfg, v);
    RefusedFits(cfg, v);
    WaitTellsFull(cfg, Before(cfg, v).state, v.ip, v.now, v.t);
    QuietRun(cfg, Before(cfg, v).state, Before(cfg, v), v.between, v.ip, First(cfg, v).verdict);
    VerdictIsFirstFull(cfg, After(cfg, v).state, v.ip, v.t);
  }

  /**
   * Exact retry-after, through whatever happens between a refusal that names s seconds and the next
   * attempt. Up to s - 1 seconds on nothing that the full window counts can be admitted, and the
   * refusal recurs, unless a prune forgot the address; then it does not recur until the address
   * is admitted anew. From s seconds on it recurs only if something counted was admitted since.
   */
  lemma DemoRetryIsLeast(cfg: Config, v: Visit)
    requires Refused(cfg, v) && First(cfg, v).retryAfter.Some?
    ensures var r, again := First(cfg, v), Again(cfg, v).verdict;
            && (v.t <= v.now + 1000 * (r.retryAfter.value - 1) ==>
                  && (!ForgottenSince(cfg, v) ==> QuietSince(cfg, v))
                  && (QuietSince(cfg, v) ==> (again == r.verdict <==> !ForgottenSince(cfg, v))))
            && (v.t >= v.now + 1000 * r.retryAfter.value ==> QuietSince(cfg, v) ==> again != r.verdict)
  {
    RefusedInOrder(cfg, v);
    RefusedFits(cfg, v);
    WaitTellsFull(cfg, Before(cfg, v).state, v.ip, v.now, v.t);
    if v.t <= v.now + 1000 * (First(cfg, v).retryAfter.value - 1) && !ForgottenSince(cfg, v) {
      RecursWhileFull(cfg, v);
    } else if QuietSince(cfg, v)
              && (ForgottenSince(cfg, v) || v.t >= v.now + 1000 * First(cfg, v).retryAfter.value) {
      EndsWhenNotFull(cfg, v);
    }
  }

  lemma NoWaitMeansNoRoom(cfg: Config, s: State, ip: string, now: int)
    requires !Check(cfg, s, ip, now).verdict.Allowed? && Check(cfg, s, ip, now).retryAfter.None?
    ensures About(cfg, s, ip, Check(cfg, s, ip, now).verdict).2 <= 0
  {
    WaitNamed(cfg, s, ip, now);
    RefusedIsFull(cfg, s, ip, now);
  }

  /** A refusal that names no wait is for ever, whatever happens: its limit lets nothing in. */
  lemma NoWaitMeansNever(cfg: Config, v: Visit)
    requires Refused(cfg, v) && First(cfg, v).retryAfter.None?
    ensures Again(cfg, v).verdict == First(cfg, v).verdict
  {
    NoWaitMeansNoRoom(cfg, Before(cfg, v).state, v.ip, v.now);
    if OfAddress(First(cfg, v).verdict) {
      NeverHeld(cfg, Start(v.clock), v.ops, v.ip);
    }
    RecursWhileFull(cfg, v);
  }

  // ----- the daily refusal as deployed

  function Minutes(n: nat): (ts: seq<int>) { seq(n, i requires 0 <= i => 60000 * i) }

  /** A request a minute, from the i-th minute up to the n-th. */
  function Minutely(ip: string, i: nat, n: nat): (ops: seq<Op>)
    decreases n - i
  {
    if i >= n then [] else [Record(ip, 60000 * i)] + Minutely(ip, i + 1, n)
  }

  /** The address alone has made a request in each of i minutes. */
  predicate AloneFor(w: World, ip: string, i: nat) {
    && w.state.global == Minutes(i) && Stamps(w.state, ip) == Minutes(i) && w.clock <= 60000 * i
    && (i > 0 ==> ip in w.state.windows && w.state.windows[ip].windowStart == 60000 * (i - 1))
  }

  lemma MinutesHeld(i: nat, now: int)
    requires 60000 * i <= now < DAY
    ensures Keep(STAMP, Minutes(i), now - DAY) == Minutes(i)
    ensures Count(Minutes(i), MINUTE, now) == 0 && Count(Minutes(i), DAY, now) == i
  {
    var ts := Minutes(i);
    assert forall j | 0 <= j < i :: now - DAY < STAMP.time(ts[j]) <= now - MINUTE;
    KeepEverything(STAMP, ts, now - DAY);
    SumAfterNone(STAMP, ts, now - MINUTE);
    KeptCount(ts, now - MINUTE);
  }

  lemma NextMinuteAdmitted(s: State, ip: string, i: nat)
    requires s.global == Minutes(i) && Stamps(s, ip) == Minutes(i) && i < 5
    ensures Check(SHIPPED, s, ip, 60000 * i).verdict.Allowed?
  {
    var now := 60000 * i;
    MinutesHeld(i, now);
    assert forall v: Verdict | !v.Allowed? :: !Full(SHIPPED, s, ip, v, now);
    VerdictIsFirstFull(SHIPPED, s, ip, now);
  }

  lemma MinutesSnoc(i: nat)
    ensures Minutes(i) + [60000 * i] == Minutes(i + 1)
  {
  }

  lemma NextMinuteRecorded(s: State, ip: string, i: nat)
    requires s.global == Minutes(i) && Stamps(s, ip) == Minutes(i) && i < 5
    requires Check(SHIPPED, s, ip, 60000 * i).verdict.Allowed?
    ensures var next := RecordStep(SHIPPED, s, ip, 60000 * i);
            && next.global == Minutes(i + 1) && Stamps(next, ip) == Minutes(i + 1)
            && ip in next.windows && next.windows[ip].windowStart == 60000 * i
  {
    MinutesHeld(i, 60000 * i);
    MinutesSnoc(i);
  }

  lemma NextMinute(w: World, ip: string, i: nat)
    requires AloneFor(w, ip, i) && i < 5
    ensures AloneFor(Apply(SHIPPED, w, Record(ip, 60000 * i)), ip, i + 1)
  {
    NextMinuteAdmitted(w.state, ip, i);
    NextMinuteRecorded(w.state, ip, i);
  }

  lemma {:induction false} FiveMinutes(w: World, ip: string, i: nat)
    requires AloneFor(w, ip, i) && i <= 5
    ensures Timely(Minutely(ip, i, 5), w.clock)
    ensures AloneFor(Run(SHIPPED, w, Minutely(ip, i, 5)), ip, 5)
    decreases 5 - i
  {
    if i < 5 {
      var first := Record(ip, 60000 * i);
      NextMinute(w, ip, i);
      FiveMinutes(Apply(SHIPPED, w, first), ip, i + 1);
      RunCons(SHIPPED, w, first, Minutely(ip, i + 1, 5));
    }
  }

  /** After five requests in five minutes the address asks again, and once more after the hourly prune. */
  function Sixth(ip: string): Visit { Visit(0, Minutely(ip, 0, 5), ip, 300000, [Prune(3840001)], 3840001) }

  lemma SixthRefused(s: State, ip: string)
    requires s.global == Minutes(5) && Stamps(s, ip) == Minutes(5)
    ensures Check(SHIPPED, s, ip, 300000).verdict == IpRpdExceeded
    ensures Check(SHIPPED, s, ip, 300000).retryAfter == Some(86100)
  {
    MinutesHeld(5, 300000);
    VerdictIsFirstFull(SHIPPED, s, ip, 300000);
    WaitNamed(SHIPPED, s, ip, 300000);
  }

  lemma SixthAdmitted(s: State, ip: string)
    requires s.global == Minutes(5) && ip !in s.windows
    ensures Check(SHIPPED, s, ip, 3840001).verdict.Allowed?
  {
    MinutesHeld(5, 3840001);
    VerdictIsFirstFull(SHIPPED, s, ip, 3840001);
  }

  lemma HourlyPrune(w: World, ip: string)
    requires AloneFor(w.(clock := 0), ip, 5)
    ensures var after := Run(SHIPPED, w, [Prune(3840001)]);
            after.clock == 3840001 && after.state.global == Minutes(5) && ip !in after.state.windows
    ensures Forgotten(SHIPPED, w.state, [Prune(3840001)], ip)
  {
    var prune := Prune(3840001);
    assert FindsStale(SHIPPED, w.state, [prune][0], ip);
    assert Run(SHIPPED, w, [prune]) == Apply(SHIPPED, w, prune) by { assert [prune][1..] == []; }
  }

  /** As deployed, an address told to come back in 86,100 seconds is admitted within the hour, after a prune. */
  lemma DayRefusalIsForgotten(ip: string)
    ensures var v := Sixth(ip);
            && Refused(SHIPPED, v) && ForgottenSince(SHIPPED, v)
            && First(SHIPPED, v).verdict == IpRpdExceeded && First(SHIPPED, v).retryAfter == Some(86100)
            && v.t == v.now + 3540001 && Again(SHIPPED, v).verdict.Allowed?
  {
    var v := Sixth(ip);
    var w := Run(SHIPPED, Start(0), v.ops);
    FiveMinutes(Start(0), ip, 0);
    SixthRefused(w.state, ip);
    HourlyPrune(Before(SHIPPED, v), ip);
    SixthAdmitted(After(SHIPPED, v).state, ip);
  }
}
