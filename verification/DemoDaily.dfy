/**
 * The daily limit of one demo address, which stale pruning forgets: in every configuration the runs
 * that exceed it are exactly the packings of one request more than the limit into less than a day
 * (src/auth/demo/sandbox.ts:107-276).
 */
module DemoDaily {
  import opened Windows
  import opened Ledger
  import opened DemoSandbox
  import opened DemoRuns
  import opened DemoRetry

  predicate DayWindowOk(cfg: Config, clock: int, ops: seq<Op>, ip: string, a: int) {
    Timely(ops, clock) ==> SumWithin(Of(ip), Run(cfg, Start(clock), ops).log, a, a + DAY) <= AtLeastZero(cfg.ipRpd)
  }

  /** In every run no address exceeds its daily limit in any day window. */
  ghost predicate DailyLimitHolds(cfg: Config) {
    forall clock, ops, ip, a :: DayWindowOk(cfg, clock, ops, ip, a)
  }

  // ----- schedules: the times of one address's requests, without a sandbox

  /** No limit shuts every request out. */
  predicate Admitting(cfg: Config) {
    cfg.ipRpm >= 1 && cfg.ipRpd >= 1 && cfg.globalRpm >= 1 && cfg.globalRpd >= 1
  }

  predicate Ascends(ts: seq<int>) {
    forall i, j | 0 <= i < j < |ts| :: ts[i] <= ts[j]
  }

  /** After the k-th request the address is idle long enough for a prune to forget it. */
  predicate Forgets(cfg: Config, ts: seq<int>, k: int) {
    0 <= k < |ts| - 1 && ts[k + 1] - ts[k] > cfg.stalePruneMs
  }

  predicate ForgetsWithin(cfg: Config, ts: seq<int>, i: int, j: int) {
    exists k | i <= k < j :: Forgets(cfg, ts, k)
  }

  predicate ApartAt(ts: seq<int>, n: int, width: int, i: int) {
    0 <= i && 0 <= n && i + n < |ts| ==> ts[i + n] - ts[i] >= width
  }

  /** No n + 1 requests lie within the width. */
  predicate Apart(ts: seq<int>, n: int, width: int) {
    forall i | 0 <= i < |ts| :: ApartAt(ts, n, width, i)
  }

  predicate SpacedAt(cfg: Config, ts: seq<int>, n: int, width: int, i: int) {
    ApartAt(ts, n, width, i) || ForgetsWithin(cfg, ts, i, i + n)
  }

  /** No n + 1 requests lie within the width, unless the address may have been forgotten in between. */
  predicate Spaced(cfg: Config, ts: seq<int>, n: int, width: int) {
    forall i | 0 <= i < |ts| :: SpacedAt(cfg, ts, n, width, i)
  }

  predicate Schedule(cfg: Config, ts: seq<int>) {
    && Ascends(ts)
    && Apart(ts, cfg.globalRpm, MINUTE) && Apart(ts, cfg.globalRpd, DAY)
    && Spaced(cfg, ts, cfg.ipRpm, MINUTE) && Spaced(cfg, ts, cfg.ipRpd, DAY)
  }

  /** One request more than the daily limit in less than a day, as the other limits allow, forgotten on the way. */
  predicate Packing(cfg: Config, ts: seq<int>) {
    && Admitting(cfg) && cfg.globalRpd > cfg.ipRpd
    && |ts| == cfg.ipRpd + 1 && Ascends(ts) && ts[cfg.ipRpd] - ts[0] < DAY
    && Apart(ts, cfg.globalRpm, MINUTE) && Spaced(cfg, ts, cfg.ipRpm, MINUTE)
    && ForgetsWithin(cfg, ts, 0, cfg.ipRpd)
  }

  ghost predicate Unpackable(cfg: Config) {
    forall ts :: !Packing(cfg, ts)
  }

  // ----- counting in ascending times

  /** The times of one address's requests. */
  function Times(log: seq<Item>, ip: string): (ts: seq<int>) {
    if log == [] then []
    else
      var n := |log| - 1;
      Times(log[..n], ip) + (if log[n].who == ip then [log[n].time] else [])
  }

  lemma {:induction false} TimesAfter(log: seq<Item>, ip: string, lo: int)
    requires forall i | 0 <= i < |log| :: log[i].weight == 1
    ensures SumAfter(STAMP, Times(log, ip), lo) == SumAfter(Of(ip), log, lo)
  {
    if log != [] {
      var n := |log| - 1;
      TimesAfter(log[..n], ip, lo);
      TimesSnoc(Times(log[..n], ip), log[n].time, lo, lo);
    }
  }

  lemma {:induction false} TimesWithin(log: seq<Item>, ip: string, lo: int, hi: int)
    requires forall i | 0 <= i < |log| :: log[i].weight == 1
    ensures SumWithin(STAMP, Times(log, ip), lo, hi) == SumWithin(Of(ip), log, lo, hi)
  {
    if log != [] {
      var n := |log| - 1;
      TimesWithin(log[..n], ip, lo, hi);
      TimesSnoc(Times(log[..n], ip), log[n].time, lo, hi);
    }
  }

  lemma TimesSnoc(ts: seq<int>, t: int, lo: int, hi: int)
    ensures SumAfter(STAMP, ts + [t], lo) == SumAfter(STAMP, ts, lo) + (if t > lo then 1 else 0)
    ensures SumWithin(STAMP, ts + [t], lo, hi) == SumWithin(STAMP, ts, lo, hi) + (if lo < t <= hi then 1 else 0)
    ensures ts + [] == ts
  {
    assert (ts + [t])[..|ts|] == ts;
  }

  /** More than n of ascending times come after lo exactly if the last but n does. */
  lemma {:induction false} CountFromEnd(ts: seq<int>, lo: int, n: nat)
    requires Ascends(ts)
    ensures SumAfter(STAMP, ts, lo) > n <==> n < |ts| && ts[|ts| - 1 - n] > lo
    ensures 0 <= SumAfter(STAMP, ts, lo) <= |ts|
  {
    if ts != [] {
      var m := |ts| - 1;
      CountFromEnd(ts[..m], lo, if n == 0 then 0 else n - 1);
      if ts[m] <= lo {
        SumAfterNone(STAMP, ts, lo);
      }
    }
  }

  /** A window with more than n of ascending times holds n + 1 neighbours. */
  lemma {:induction false} NeighboursWithin(ts: seq<int>, lo: int, hi: int, n: nat) returns (i: nat)
    requires Ascends(ts) && lo <= hi && SumWithin(STAMP, ts, lo, hi) > n
    ensures i + n < |ts| && lo < ts[i] && ts[i + n] <= hi
  {
    var m := |ts| - 1;
    if ts[m] > hi {
      i := NeighboursWithin(ts[..m], lo, hi, n);
    } else {
      SumAfterSplits(STAMP, ts, lo, hi);
      SumAfterNone(STAMP, ts, hi);
      CountFromEnd(ts, lo, n);
      i := m - n;
    }
  }

  // ----- every run keeps a schedule

  lemma ApartSnoc(ts: seq<int>, t: int, n: int, width: int)
    requires Apart(ts, n, width) && n >= 1 && (|ts| >= n ==> t - ts[|ts| - n] >= width)
    ensures Apart(ts + [t], n, width)
  {
    forall i | 0 <= i < |ts| + 1
      ensures ApartAt(ts + [t], n, width, i)
    {
      assert i < |ts| ==> ApartAt(ts, n, width, i);
    }
  }

  lemma SpacedSnoc(cfg: Config, ts: seq<int>, t: int, n: int, width: int)
    requires Spaced(cfg, ts, n, width) && n >= 1
    requires |ts| >= n ==> t - ts[|ts| - n] >= width || ForgetsWithin(cfg, ts + [t], |ts| - n, |ts|)
    ensures Spaced(cfg, ts + [t], n, width)
  {
    forall i | 0 <= i < |ts| + 1
      ensures SpacedAt(cfg, ts + [t], n, width, i)
    {
      if i + n < |ts| {
        assert SpacedAt(cfg, ts, n, width, i);
        if ForgetsWithin(cfg, ts, i, i + n) {
          var k :| i <= k < i + n && Forgets(cfg, ts, k);
          assert Forgets(cfg, ts + [t], k);
        }
      }
    }
  }

  /** The sandbox holds an address's requests from the k-th on, or it has forgotten all of them. */
  ghost predicate HeldFrom(cfg: Config, w: World, ip: string, own: seq<int>, k: nat) {
    && k <= |own| && (0 < k < |own| ==> Forgets(cfg, own, k - 1))
    && (0 < k == |own| ==> w.clock - own[k - 1] > cfg.stalePruneMs)
    && (ip in w.state.windows ==> own != [] && w.state.windows[ip].windowStart == own[|own| - 1])
    && forall lo | lo >= w.clock - DAY :: SameStamps(Stamps(w.state, ip), own[k..], lo)
  }

  predicate SameStamps(held: seq<int>, own: seq<int>, lo: int) {
    SumAfter(STAMP, held, lo) == SumAfter(STAMP, own, lo)
  }

  ghost predicate Keeps(cfg: Config, w: World, ip: string) {
    var own := Times(w.log, ip);
    && GlobalOk(w) && Schedule(cfg, own) && (own != [] ==> own[|own| - 1] <= w.clock)
    && exists k :: HeldFrom(cfg, w, ip, own, k)
  }

  lemma CountOfHeld(cfg: Config, w: World, ip: string, own: seq<int>, k: nat, now: int, width: int)
    requires HeldFrom(cfg, w, ip, own, k) && w.clock <= now && width <= DAY
    ensures Count(Stamps(w.state, ip), width, now) == SumAfter(STAMP, own[k..], now - width)
  {
    KeptCount(Stamps(w.state, ip), now - width);
    assert SameStamps(Stamps(w.state, ip), own[k..], now - width);
  }

  lemma ForgottenByNow(cfg: Config, w: World, ip: string, own: seq<int>, k: nat, now: int, i: nat)
    requires HeldFrom(cfg, w, ip, own, k) && w.clock <= now && i < k
    ensures ForgetsWithin(cfg, own + [now], i, |own|)
  {
    assert Forgets(cfg, own + [now], k - 1);
  }

  lemma LastButIsOld(own: seq<int>, k: nat, lo: int, n: nat)
    requires Ascends(own) && n >= 1 && k <= |own| - n && SumAfter(STAMP, own[k..], lo) < n
    ensures own[|own| - n] <= lo
  {
    CountFromEnd(own[k..], lo, n - 1);
  }

  /** With n held requests within the width before now there is no room for another. */
  lemma RoomMeansSpace(cfg: Config, w: World, ip: string, own: seq<int>, k: nat, now: int, n: int, width: int)
    requires HeldFrom(cfg, w, ip, own, k) && Ascends(own) && w.clock <= now && n >= 1 && width <= DAY
    requires Count(Stamps(w.state, ip), width, now) < n && |own| >= n
    ensures now - own[|own| - n] >= width || ForgetsWithin(cfg, own + [now], |own| - n, |own|)
  {
    if k <= |own| - n {
      CountOfHeld(cfg, w, ip, own, k, now, width);
      LastButIsOld(own, k, now - width, n);
    } else {
      ForgottenByNow(cfg, w, ip, own, k, now, |own| - n);
    }
  }

  lemma PoolRoomMeansSpace(w: World, ip: string, own: seq<int>, now: int, n: int, width: int)
    requires GlobalOk(w) && own == Times(w.log, ip) && Ascends(own) && w.clock <= now && n >= 1 && width <= DAY
    requires Count(w.state.global, width, now) < n && |own| >= n
    ensures now - own[|own| - n] >= width
  {
    KeptCount(w.state.global, now - width);
    assert SameCount(w.state.global, TOTAL, w.log, now - width);
    TimesAfter(w.log, ip, now - width);
    ShareAtMostTotal(w.log, ip, now - width);
    CountFromEnd(own, now - width, n - 1);
  }

  /** An admitted request extends the schedule of its address. */
  lemma AdmittedExtends(cfg: Config, w: World, ip: string, now: int, k: nat)
    requires Admitting(cfg) && GlobalOk(w) && w.clock <= now && Check(cfg, w.state, ip, now).verdict.Allowed?
    requires Schedule(cfg, Times(w.log, ip)) && HeldFrom(cfg, w, ip, Times(w.log, ip), k)
    requires var own := Times(w.log, ip); own != [] ==> own[|own| - 1] <= w.clock
    ensures Schedule(cfg, Times(w.log, ip) + [now])
  {
    var own := Times(w.log, ip);
    AllowedHasRoom(cfg, w.state, ip, now);
    PoolExtends(cfg, w, ip, own, now, cfg.globalRpm, MINUTE);
    PoolExtends(cfg, w, ip, own, now, cfg.globalRpd, DAY);
    OwnExtends(cfg, w, ip, own, now, k, cfg.ipRpm, MINUTE);
    OwnExtends(cfg, w, ip, own, now, k, cfg.ipRpd, DAY);
  }

  lemma PoolExtends(cfg: Config, w: World, ip: string, own: seq<int>, now: int, n: int, width: int)
    requires GlobalOk(w) && own == Times(w.log, ip) && Ascends(own) && w.clock <= now && n >= 1 && width <= DAY
    requires Count(w.state.global, width, now) < n && Apart(own, n, width)
    ensures Apart(own + [now], n, width)
  {
    if |own| >= n {
      PoolRoomMeansSpace(w, ip, own, now, n, width);
    }
    ApartSnoc(own, now, n, width);
  }

  lemma OwnExtends(cfg: Config, w: World, ip: string, own: seq<int>, now: int, k: nat, n: int, width: int)
    requires HeldFrom(cfg, w, ip, own, k) && Ascends(own) && w.clock <= now && n >= 1 && width <= DAY
    requires Count(Stamps(w.state, ip), width, now) < n && Spaced(cfg, own, n, width)
    ensures Spaced(cfg, own + [now], n, width)
  {
    if |own| >= n {
      RoomMeansSpace(cfg, w, ip, own, k, now, n, width);
    }
    SpacedSnoc(cfg, own, now, n, width);
  }

  lemma AdmittedStamps(cfg: Config, w: World, ip: string, own: seq<int>, now: int, lo: int)
    requires SameStamps(Stamps(w.state, ip), own, lo) && lo >= now - DAY
    requires Check(cfg, w.state, ip, now).verdict.Allowed?
    ensures SameStamps(Stamps(Apply(cfg, w, Record(ip, now)).state, ip), own + [now], lo)
  {
    var held := Stamps(w.state, ip);
    KeepSums(STAMP, STAMP, held, now - DAY, lo);
    TimesSnoc(Keep(STAMP, held, now - DAY), now, lo, lo);
    TimesSnoc(own, now, lo, lo);
  }

  lemma AdmittedHeld(cfg: Config, w: World, ip: string, own: seq<int>, k: nat, now: int)
    requires HeldFrom(cfg, w, ip, own, k) && w.clock <= now && Check(cfg, w.state, ip, now).verdict.Allowed?
    ensures HeldFrom(cfg, Apply(cfg, w, Record(ip, now)), ip, own + [now], k)
  {
    var next, longer := Apply(cfg, w, Record(ip, now)), own + [now];
    assert longer[k..] == own[k..] + [now];
    assert 0 < k <= |own| ==> Forgets(cfg, longer, k - 1);
    forall lo | lo >= now - DAY
      ensures SameStamps(Stamps(next.state, ip), longer[k..], lo)
    {
      assert SameStamps(Stamps(w.state, ip), own[k..], lo);
      AdmittedStamps(cfg, w, ip, own[k..], now, lo);
    }
  }

  /** A step that admits no request of the address: a prune may forget it. */
  lemma OtherHeld(cfg: Config, w: World, op: Op, ip: string, own: seq<int>, k: nat)
    requires HeldFrom(cfg, w, ip, own, k) && w.clock <= op.now
    requires op.Record? && op.ip == ip ==> !Check(cfg, w.state, ip, op.now).verdict.Allowed?
    ensures exists k' :: HeldFrom(cfg, Apply(cfg, w, op), ip, own, k')
  {
    var next := Apply(cfg, w, op);
    if op.Prune? && ip in w.state.windows && w.state.windows[ip].windowStart < op.now - cfg.stalePruneMs {
      assert own[|own|..] == [];
      assert HeldFrom(cfg, next, ip, own, |own|);
    } else {
      assert Stamps(next.state, ip) == Stamps(w.state, ip);
      assert HeldFrom(cfg, next, ip, own, k);
    }
  }

  lemma TimesStep(cfg: Config, w: World, op: Op, ip: string)
    ensures Times(Apply(cfg, w, op).log, ip) ==
            if op.Record? && op.ip == ip && Check(cfg, w.state, ip, op.now).verdict.Allowed?
            then Times(w.log, ip) + [op.now] else Times(w.log, ip)
  {
    if op.Record? {
      assert (w.log + [Item(op.now, op.ip, 1)])[..|w.log|] == w.log;
    }
  }

  lemma AdmittedKeeps(cfg: Config, w: World, ip: string, now: int)
    requires Admitting(cfg) && Keeps(cfg, w, ip) && w.clock <= now && Check(cfg, w.state, ip, now).verdict.Allowed?
    ensures Keeps(cfg, Apply(cfg, w, Record(ip, now)), ip)
  {
    var own, next := Times(w.log, ip), Apply(cfg, w, Record(ip, now));
    var k :| HeldFrom(cfg, w, ip, own, k);
    StepGlobalOk(cfg, w, Record(ip, now));
    AdmittedExtends(cfg, w, ip, now, k);
    AdmittedHeld(cfg, w, ip, own, k, now);
    TimesStep(cfg, w, Record(ip, now), ip);
    assert HeldFrom(cfg, next, ip, Times(next.log, ip), k);
  }

  lemma OtherKeeps(cfg: Config, w: World, op: Op, ip: string)
    requires Keeps(cfg, w, ip) && w.clock <= op.now
    requires op.Record? && op.ip == ip ==> !Check(cfg, w.state, ip, op.now).verdict.Allowed?
    ensures Keeps(cfg, Apply(cfg, w, op), ip)
  {
    var own, next := Times(w.log, ip), Apply(cfg, w, op);
    var k :| HeldFrom(cfg, w, ip, own, k);
    StepGlobalOk(cfg, w, op);
    OtherHeld(cfg, w, op, ip, own, k);
    TimesStep(cfg, w, op, ip);
    assert Times(next.log, ip) == own && w.clock <= next.clock;
  }

  lemma StepKeeps(cfg: Config, w: World, op: Op, ip: string)
    requires Admitting(cfg) && Keeps(cfg, w, ip) && w.clock <= op.now
    ensures Keeps(cfg, Apply(cfg, w, op), ip)
  {
    if op.Record? && op.ip == ip && Check(cfg, w.state, ip, op.now).verdict.Allowed? {
      AdmittedKeeps(cfg, w, ip, op.now);
    } else {
      OtherKeeps(cfg, w, op, ip);
    }
  }

  lemma {:induction false} RunKeeps(cfg: Config, w: World, ops: seq<Op>, ip: string)
    requires Admitting(cfg) && Keeps(cfg, w, ip) && Timely(ops, w.clock)
    ensures Keeps(cfg, Run(cfg, w, ops), ip)
    decreases |ops|
  {
    if ops != [] {
      StepKeeps(cfg, w, ops[0], ip);
      RunKeeps(cfg, Apply(cfg, w, ops[0]), ops[1..], ip);
    }
  }

  lemma {:induction false} NothingAdmitted(cfg: Config, w: World, ops: seq<Op>)
    requires !Admitting(cfg) && w.log == []
    ensures Run(cfg, w, ops).log == []
    decreases |ops|
  {
    if ops != [] {
      if ops[0].Record? && Check(cfg, w.state, ops[0].ip, ops[0].now).verdict.Allowed? {
        AllowedHasRoom(cfg, w.state, ops[0].ip, ops[0].now);
        assert false;
      }
      NothingAdmitted(cfg, Apply(cfg, w, ops[0]), ops[1..]);
    }
  }

  /** In every run, whoever else makes requests and whenever prunes happen, each address keeps a schedule. */
  lemma EveryRunKeepsSchedule(cfg: Config, clock: int, ops: seq<Op>, ip: string)
    requires Timely(ops, clock)
    ensures GlobalOk(Run(cfg, Start(clock), ops))
    ensures Schedule(cfg, Times(Run(cfg, Start(clock), ops).log, ip))
  {
    StartOk(clock, ip, DAY);
    if Admitting(cfg) {
      assert HeldFrom(cfg, Start(clock), ip, [], 0);
      RunKeeps(cfg, Start(clock), ops, ip);
    } else {
      NothingAdmitted(cfg, Start(clock), ops);
      RunGlobalWithin(cfg, Start(clock), ops);
    }
  }

  // ----- a full day window is a packing

  lemma PartForgets(cfg: Config, ts: seq<int>, i: nat, n: nat, j: int, k: int)
    requires i + n <= |ts| && 0 <= j <= k < n && ForgetsWithin(cfg, ts, i + j, i + k)
    ensures ForgetsWithin(cfg, ts[i..i + n], j, k)
  {
    var m :| i + j <= m < i + k && Forgets(cfg, ts, m);
    assert Forgets(cfg, ts[i..i + n], m - i);
  }

  lemma PartApart(ts: seq<int>, i: nat, n: nat, gap: int, width: int)
    requires i + n <= |ts| && Apart(ts, gap, width)
    ensures Apart(ts[i..i + n], gap, width)
  {
    var part := ts[i..i + n];
    forall j | 0 <= j < n
      ensures ApartAt(part, gap, width, j)
    {
      assert ApartAt(ts, gap, width, i + j);
    }
  }

  lemma PartSpaced(cfg: Config, ts: seq<int>, i: nat, n: nat, gap: nat, width: int)
    requires i + n <= |ts| && Spaced(cfg, ts, gap, width)
    ensures Spaced(cfg, ts[i..i + n], gap, width)
  {
    var part := ts[i..i + n];
    forall j | 0 <= j < n
      ensures SpacedAt(cfg, part, gap, width, j)
    {
      assert SpacedAt(cfg, ts, gap, width, i + j);
      if j + gap < n && ForgetsWithin(cfg, ts, i + j, i + j + gap) {
        PartForgets(cfg, ts, i, n, j, j + gap);
      }
    }
  }

  lemma PartIsPacking(cfg: Config, ts: seq<int>, i: nat)
    requires Admitting(cfg) && Schedule(cfg, ts) && i + cfg.ipRpd < |ts| && ts[i + cfg.ipRpd] - ts[i] < DAY
    ensures Packing(cfg, ts[i..i + cfg.ipRpd + 1])
  {
    var b := cfg.ipRpd;
    PartApart(ts, i, b + 1, cfg.globalRpm, MINUTE);
    PartSpaced(cfg, ts, i, b + 1, cfg.ipRpm, MINUTE);
    assert SpacedAt(cfg, ts, b, DAY, i);
    PartForgets(cfg, ts, i, b + 1, 0, b);
    assert ApartAt(ts, cfg.globalRpd, DAY, i);
  }

  lemma ScheduleIsSafe(cfg: Config, log: seq<Item>, ip: string, a: int)
    requires Unpackable(cfg) && Admitting(cfg) && Schedule(cfg, Times(log, ip))
    requires forall i | 0 <= i < |log| :: log[i].weight == 1
    ensures SumWithin(Of(ip), log, a, a + DAY) <= cfg.ipRpd
  {
    var own := Times(log, ip);
    TimesWithin(log, ip, a, a + DAY);
    if SumWithin(STAMP, own, a, a + DAY) > cfg.ipRpd {
      var i := NeighboursWithin(own, a, a + DAY, cfg.ipRpd);
      PartIsPacking(cfg, own, i);
      assert false;
    }
  }

  lemma UnpackableIsSafe(cfg: Config, clock: int, ops: seq<Op>, ip: string, a: int)
    requires Unpackable(cfg) && Timely(ops, clock)
    ensures DayWindowOk(cfg, clock, ops, ip, a)
  {
    if !Admitting(cfg) {
      NothingAdmitted(cfg, Start(clock), ops);
    } else {
      EveryRunKeepsSchedule(cfg, clock, ops, ip);
      ScheduleIsSafe(cfg, Run(cfg, Start(clock), ops).log, ip, a);
    }
  }

  // ----- a packing is a run

  /** The requests of a packing from the i-th on, each after a prune if that forgets the address. */
  function Visits(cfg: Config, ip: string, ts: seq<int>, i: nat): (ops: seq<Op>)
    decreases |ts| - i
  {
    if i >= |ts| then []
    else
      (if Forgets(cfg, ts, i - 1) then [Prune(ts[i])] else []) + ([Record(ip, ts[i])] + Visits(cfg, ip, ts, i + 1))
  }

  function Logged(ip: string, ts: seq<int>): (log: seq<Item>) {
    if ts == [] then [] else Logged(ip, ts[..|ts| - 1]) + [Item(ts[|ts| - 1], ip, 1)]
  }

  /** After i requests of a packing: the pool holds all of them, the address those from the k-th on. */
  ghost predicate Visited(w: World, ip: string, ts: seq<int>, i: nat, k: nat) {
    && k <= i <= |ts| && w.state.global == ts[0..i] && Stamps(w.state, ip) == ts[k..i] && w.log == Logged(ip, ts[0..i])
    && (ip in w.state.windows ==> i > 0 && w.state.windows[ip].windowStart == ts[i - 1])
    && (i < |ts| ==> w.clock <= ts[i])
  }

  /** Nothing can have been forgotten since the k-th request. */
  predicate Unforgotten(cfg: Config, ts: seq<int>, k: nat, i: int) {
    forall j | k <= j < i :: !Forgets(cfg, ts, j)
  }

  lemma PruneVisited(cfg: Config, w: World, ip: string, ts: seq<int>, i: nat, k: nat)
    requires Visited(w, ip, ts, i, k) && i < |ts| && Forgets(cfg, ts, i - 1)
    ensures Visited(Apply(cfg, w, Prune(ts[i])), ip, ts, i, i)
  {
  }

  /** Fewer than n of the times from the k-th to the i-th lie within the width before the i-th. */
  lemma RoomForNext(ts: seq<int>, k: nat, i: nat, n: int, width: int)
    requires Ascends(ts) && k <= i < |ts| && n >= 1 && (i - k >= n ==> ts[i] - ts[i - n] >= width)
    ensures Count(ts[k..i], width, ts[i]) < n
  {
    KeptCount(ts[k..i], ts[i] - width);
    CountFromEnd(ts[k..i], ts[i] - width, n - 1);
  }

  lemma AddressHasRoom(cfg: Config, ts: seq<int>, i: nat, k: nat)
    requires Packing(cfg, ts) && k <= i < |ts| && Unforgotten(cfg, ts, k, i)
    ensures Count(ts[k..i], MINUTE, ts[i]) < cfg.ipRpm && Count(ts[k..i], DAY, ts[i]) < cfg.ipRpd
  {
    if i - k >= cfg.ipRpm {
      assert SpacedAt(cfg, ts, cfg.ipRpm, MINUTE, i - cfg.ipRpm);
    }
    RoomForNext(ts, k, i, cfg.ipRpm, MINUTE);
    RoomForNext(ts, k, i, cfg.ipRpd, DAY);
  }

  lemma PoolHasRoom(cfg: Config, ts: seq<int>, i: nat)
    requires Packing(cfg, ts) && i < |ts|
    ensures Count(ts[0..i], MINUTE, ts[i]) < cfg.globalRpm && Count(ts[0..i], DAY, ts[i]) < cfg.globalRpd
  {
    if i >= cfg.globalRpm {
      assert ApartAt(ts, cfg.globalRpm, MINUTE, i - cfg.globalRpm);
    }
    RoomForNext(ts, 0, i, cfg.globalRpm, MINUTE);
    RoomForNext(ts, 0, i, cfg.globalRpd, DAY);
  }

  lemma NextIsAllowed(cfg: Config, w: World, ip: string, ts: seq<int>, i: nat, k: nat)
    requires Packing(cfg, ts) && Visited(w, ip, ts, i, k) && i < |ts| && Unforgotten(cfg, ts, k, i)
    ensures Check(cfg, w.state, ip, ts[i]).verdict.Allowed?
  {
    AddressHasRoom(cfg, ts, i, k);
    PoolHasRoom(cfg, ts, i);
    VerdictIsFirstFull(cfg, w.state, ip, ts[i]);
  }

  lemma AllOfToday(ts: seq<int>, k: nat, i: nat)
    requires Ascends(ts) && k <= i < |ts| && ts[|ts| - 1] - ts[0] < DAY
    ensures Keep(STAMP, ts[k..i], ts[i] - DAY) == ts[k..i]
  {
    KeepEverything(STAMP, ts[k..i], ts[i] - DAY);
  }

  lemma RecordedState(cfg: Config, w: World, ip: string, now: int, own: seq<int>, all: seq<int>)
    requires Check(cfg, w.state, ip, now).verdict.Allowed?
    requires Stamps(w.state, ip) == own && w.state.global == all && w.log == Logged(ip, all)
    requires Keep(STAMP, own, now - DAY) == own && Keep(STAMP, all, now - DAY) == all
    ensures var next := Apply(cfg, w, Record(ip, now));
            && Stamps(next.state, ip) == own + [now] && next.state.global == all + [now]
            && next.log == Logged(ip, all + [now])
            && ip in next.state.windows && next.state.windows[ip].windowStart == now
  {
    assert (all + [now])[..|all|] == all;
  }

  lemma SliceGrows(ts: seq<int>, k: nat, i: nat)
    requires k <= i < |ts|
    ensures ts[k..i] + [ts[i]] == ts[k..i + 1]
  {
  }

  lemma NextState(cfg: Config, w: World, ip: string, ts: seq<int>, i: nat, k: nat)
    requires Ascends(ts) && Visited(w, ip, ts, i, k) && i < |ts| && ts[|ts| - 1] - ts[0] < DAY
    requires Check(cfg, w.state, ip, ts[i]).verdict.Allowed?
    ensures var next := Apply(cfg, w, Record(ip, ts[i]));
            && next.state.global == ts[0..i + 1] && Stamps(next.state, ip) == ts[k..i + 1]
            && next.log == Logged(ip, ts[0..i + 1])
            && ip in next.state.windows && next.state.windows[ip].windowStart == ts[i]
  {
    AllOfToday(ts, k, i);
    AllOfToday(ts, 0, i);
    RecordedState(cfg, w, ip, ts[i], ts[k..i], ts[0..i]);
    SliceGrows(ts, k, i);
    SliceGrows(ts, 0, i);
  }

  lemma NextVisited(cfg: Config, w: World, ip: string, ts: seq<int>, i: nat, k: nat)
    requires Ascends(ts) && Visited(w, ip, ts, i, k) && i < |ts| && ts[|ts| - 1] - ts[0] < DAY
    requires Check(cfg, w.state, ip, ts[i]).verdict.Allowed?
    ensures Visited(Apply(cfg, w, Record(ip, ts[i])), ip, ts, i + 1, k)
  {
    NextState(cfg, w, ip, ts, i, k);
  }

  lemma VisitsCons(cfg: Config, ip: string, ts: seq<int>, i: nat)
    requires i < |ts|
    ensures var rest := [Record(ip, ts[i])] + Visits(cfg, ip, ts, i + 1);
            Visits(cfg, ip, ts, i) == if Forgets(cfg, ts, i - 1) then [Prune(ts[i])] + rest else rest
  {
  }

  /** The request after the prune, if one is due. */
  lemma NextRecord(cfg: Config, w: World, ip: string, ts: seq<int>, i: nat, k: nat)
    requires Packing(cfg, ts) && Visited(w, ip, ts, i, k) && i < |ts| && Unforgotten(cfg, ts, k, i)
    ensures Visited(Apply(cfg, w, Record(ip, ts[i])), ip, ts, i + 1, k)
    ensures Apply(cfg, w, Record(ip, ts[i])).clock == ts[i] && w.clock <= ts[i]
  {
    NextIsAllowed(cfg, w, ip, ts, i, k);
    NextVisited(cfg, w, ip, ts, i, k);
  }

  lemma {:induction false} VisitsRun(cfg: Config, w: World, ip: string, ts: seq<int>, i: nat, k: nat)
    requires Packing(cfg, ts) && Visited(w, ip, ts, i, k) && Unforgotten(cfg, ts, k, i - 1)
    ensures Timely(Visits(cfg, ip, ts, i), w.clock)
    ensures Run(cfg, w, Visits(cfg, ip, ts, i)).log == Logged(ip, ts)
    decreases |ts| - i, 1
  {
    if i == |ts| {
      assert ts[0..i] == ts;
    } else if Forgets(cfg, ts, i - 1) {
      VisitsCons(cfg, ip, ts, i);
      var pruned := Apply(cfg, w, Prune(ts[i]));
      PruneVisited(cfg, w, ip, ts, i, k);
      RunCons(cfg, w, Prune(ts[i]), [Record(ip, ts[i])] + Visits(cfg, ip, ts, i + 1));
      RecordRun(cfg, pruned, ip, ts, i, i);
    } else {
      VisitsCons(cfg, ip, ts, i);
      RecordRun(cfg, w, ip, ts, i, k);
    }
  }

  lemma {:induction false} RecordRun(cfg: Config, w: World, ip: string, ts: seq<int>, i: nat, k: nat)
    requires Packing(cfg, ts) && Visited(w, ip, ts, i, k) && i < |ts| && Unforgotten(cfg, ts, k, i)
    ensures Timely([Record(ip, ts[i])] + Visits(cfg, ip, ts, i + 1), w.clock)
    ensures Run(cfg, w, [Record(ip, ts[i])] + Visits(cfg, ip, ts, i + 1)).log == Logged(ip, ts)
    decreases |ts| - i, 0
  {
    var next := Apply(cfg, w, Record(ip, ts[i]));
    NextRecord(cfg, w, ip, ts, i, k);
    VisitsRun(cfg, next, ip, ts, i + 1, k);
    RunCons(cfg, w, Record(ip, ts[i]), Visits(cfg, ip, ts, i + 1));
  }

  lemma {:induction false} LoggedWithin(ip: string, ts: seq<int>, lo: int, hi: int)
    requires Ascends(ts) && (ts != [] ==> lo < ts[0] && ts[|ts| - 1] <= hi)
    ensures SumWithin(Of(ip), Logged(ip, ts), lo, hi) == |ts|
  {
    if ts != [] {
      var n := |ts| - 1;
      var before, last := Logged(ip, ts[..n]), Item(ts[n], ip, 1);
      LoggedWithin(ip, ts[..n], lo, hi);
      assert (before + [last])[..|before|] == before;
      assert lo < ts[n] <= hi;
    }
  }

  lemma PackingRuns(cfg: Config, ip: string, ts: seq<int>)
    requires Packing(cfg, ts)
    ensures Timely(Visits(cfg, ip, ts, 0), ts[0])
    ensures Run(cfg, Start(ts[0]), Visits(cfg, ip, ts, 0)).log == Logged(ip, ts)
  {
    var w := Start(ts[0]);
    assert Visited(w, ip, ts, 0, 0) by {
      assert ts[0..0] == [];
    }
    VisitsRun(cfg, w, ip, ts, 0, 0);
  }

  /** Every packing is a run in which the address exceeds its daily limit by one. */
  lemma PackingExceeds(cfg: Config, ip: string, ts: seq<int>)
    requires Packing(cfg, ts)
    ensures Timely(Visits(cfg, ip, ts, 0), ts[0])
    ensures SumWithin(Of(ip), Run(cfg, Start(ts[0]), Visits(cfg, ip, ts, 0)).log, ts[0] - 1, ts[0] - 1 + DAY)
            == cfg.ipRpd + 1
  {
    PackingRuns(cfg, ip, ts);
    LoggedWithin(ip, ts, ts[0] - 1, ts[0] - 1 + DAY);
  }

  /**
   * In every configuration: all runs keep the daily limit of every address exactly when no packing
   * exists, that is when no b + 1 times less than a day apart meet four inequalities on their distances.
   */
  lemma DailyIpLimitIffUnpackable(cfg: Config)
    ensures DailyLimitHolds(cfg) <==> Unpackable(cfg)
  {
    if Unpackable(cfg) {
      forall clock, ops, ip, a
        ensures DayWindowOk(cfg, clock, ops, ip, a)
      {
        if Timely(ops, clock) {
          UnpackableIsSafe(cfg, clock, ops, ip, a);
        }
      }
    } else {
      var ts :| Packing(cfg, ts);
      PackingExceeds(cfg, "", ts);
      assert !DayWindowOk(cfg, ts[0], Visits(cfg, "", ts, 0), "", ts[0] - 1);
    }
  }
}
