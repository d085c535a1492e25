/**
 * How little time one request more than a demo address's daily limit takes, and with it the condition
 * on a configuration under which stale pruning lets no address exceed the limit
 * (src/auth/demo/sandbox.ts:107-276).
 */
module DemoBreaking {
  import opened Windows
  import opened Ledger
  import opened DemoSandbox
  import opened DemoRuns
  import opened DemoDaily

  function Max(a: int, b: int): int { if a < b then b else a }

  function Min(a: int, b: int): int { if a < b then a else b }

  /** The idle time after which a prune forgets an address. */
  function Idle(cfg: Config): (d: int)
    ensures d >= 0 && d > cfg.stalePruneMs
  {
    AtLeastZero(cfg.stalePruneMs + 1)
  }

  /** All requests up to the daily limit fit into one minute. */
  predicate AtOnce(cfg: Config) { cfg.ipRpd <= cfg.ipRpm && cfg.ipRpd < cfg.globalRpm }

  /** How many requests of one address fit into a minute in which it is not forgotten. */
  function Pace(cfg: Config): int { Min(cfg.ipRpm, cfg.globalRpm) }

  /**
   * The least time one request more than the daily limit takes. All but one at once, and the last
   * after an idle time; or at full pace around one idle time of at least a minute; or in bursts, each
   * after an idle time, where these take up the minute anyway; or in bursts up to the pool's limit
   * in each minute.
   */
  function Fastest(cfg: Config): int
    requires Admitting(cfg)
  {
    var e, b, g, d := cfg.ipRpm, cfg.ipRpd, cfg.globalRpm, Idle(cfg);
    if AtOnce(cfg) then d
    else if d >= MINUTE then d + MINUTE * (b / Pace(cfg) - 1)
    else if d * (g / e) >= MINUTE then d * (b / e)
    else MINUTE * (b / g) + d * ((b % g) / e)
  }

  /**
   * The least time is reached: there is no more than one burst to speak of, or a minute is no shorter
   * than the bursts that use up the pool's limit, or no longer than those that stay within it.
   */
  predicate Reached(cfg: Config) {
    var e, g, d := cfg.ipRpm, cfg.globalRpm, Idle(cfg);
    Admitting(cfg) ==> AtOnce(cfg) || d >= MINUTE || d * (g / e) >= MINUTE || d * ((g - 1) / e + 1) <= MINUTE
  }

  /** Nothing is admitted, the global daily limit is no higher, or one request too many takes a day. */
  predicate Safe(cfg: Config) {
    !Admitting(cfg) || cfg.globalRpd <= cfg.ipRpd || Fastest(cfg) >= DAY
  }

  // ----- quotients

  lemma QuotientIs(n: int, e: int, q: int, r: int)
    requires n == e * q + r && 0 <= r < e
    ensures n / e == q && n % e == r
  {
    var d := n / e - q;
    assert e * d == e * (n / e) - e * q == r - n % e;
    assert d >= 1 ==> e * d >= e;
    assert d <= -1 ==> e * d <= -e;
  }

  lemma QuotientGrows(i: nat, j: nat, e: int)
    requires i <= j && e >= 1
    ensures i / e <= j / e
  {
    var d := j / e - i / e;
    assert e * d == e * (j / e) - e * (i / e) == (j - j % e) - (i - i % e);
    assert d <= -1 ==> e * d <= -e;
  }

  lemma QuotientNext(i: nat, e: int)
    requires e >= 1
    ensures (i + e) / e == i / e + 1 && (i + e) % e == i % e
  {
    assert i == e * (i / e) + i % e;
    QuotientIs(i + e, e, i / e + 1, i % e);
  }

  lemma QuotientSum(i: nat, j: nat, e: int)
    requires e >= 1
    ensures i / e + j / e <= (i + j) / e <= i / e + j / e + 1
  {
    var q := i / e + j / e;
    assert i == e * (i / e) + i % e && j == e * (j / e) + j % e;
    assert i + j == e * q + (i % e + j % e);
    if i % e + j % e < e {
      QuotientIs(i + j, e, q, i % e + j % e);
    } else {
      QuotientIs(i + j, e, q + 1, i % e + j % e - e);
    }
  }

  /** Within its block of n, i is the last, or its successor is the next. */
  lemma RemainderNext(i: nat, n: int)
    requires n >= 1
    ensures i % n < n - 1 ==> (i + 1) / n == i / n && (i + 1) % n == i % n + 1
    ensures i % n == n - 1 ==> (i + 1) / n == i / n + 1 && (i + 1) % n == 0
  {
    assert i == n * (i / n) + i % n;
    if i % n < n - 1 {
      QuotientIs(i + 1, n, i / n, i % n + 1);
    } else {
      QuotientIs(i + 1, n, i / n + 1, 0);
    }
  }

  lemma TimesGrows(d: int, p: int, q: int)
    requires d >= 0 && p <= q
    ensures d * p <= d * q
  {
  }

  // ----- every packing takes that long

  lemma {:induction false} ApartChain(ts: seq<int>, n: int, width: int, i: nat, q: nat)
    requires Apart(ts, n, width) && n >= 1 && i + n * q < |ts|
    ensures ts[i + n * q] - ts[i] >= width * q
  {
    if q > 0 {
      assert n * q == n * (q - 1) + n && width * q == width * (q - 1) + width;
      ApartChain(ts, n, width, i, q - 1);
      assert ApartAt(ts, n, width, i + n * (q - 1));
    }
  }

  lemma ApartSpan(ts: seq<int>, n: int, width: int, i: nat, j: nat)
    requires Apart(ts, n, width) && Ascends(ts) && n >= 1 && i <= j < |ts|
    ensures ts[j] - ts[i] >= width * ((j - i) / n)
  {
    var q := (j - i) / n;
    assert j - i == n * q + (j - i) % n;
    ApartChain(ts, n, width, i, q);
  }

  lemma SpacedIsApart(cfg: Config, ts: seq<int>, n: int, width: int, least: int)
    requires Spaced(cfg, ts, n, width) && Ascends(ts) && n >= 1 && least <= width && least <= Idle(cfg)
    ensures Apart(ts, n, least)
  {
    forall i | 0 <= i < |ts|
      ensures ApartAt(ts, n, least, i)
    {
      assert SpacedAt(cfg, ts, n, width, i);
      if i + n < |ts| && !ApartAt(ts, n, width, i) {
        var k :| i <= k < i + n && Forgets(cfg, ts, k);
        IdleSpan(cfg, ts, i, k, i + n);
      }
    }
  }

  lemma IdleSpan(cfg: Config, ts: seq<int>, i: int, k: int, j: int)
    requires Ascends(ts) && 0 <= i <= k < j < |ts| && Forgets(cfg, ts, k)
    ensures ts[k + 1] - ts[k] >= Idle(cfg)
    ensures ts[j] - ts[i] >= Idle(cfg) + (ts[k] - ts[i]) + (ts[j] - ts[k + 1])
  {
  }

  lemma ApartAtPace(cfg: Config, ts: seq<int>)
    requires Packing(cfg, ts) && Idle(cfg) >= MINUTE
    ensures Apart(ts, Pace(cfg), MINUTE)
  {
    SpacedIsApart(cfg, ts, cfg.ipRpm, MINUTE, MINUTE);
  }

  lemma AtMostOneMore(b: int, p: int, q: int, short: int)
    requires b == p * q + short && 0 <= short < p * 2
    ensures b / p <= q + 1
  {
    if short < p {
      QuotientIs(b, p, q, short);
    } else {
      assert p * (q + 1) == p * q + p;
      QuotientIs(b, p, q + 1, short - p);
    }
  }

  /** The whole blocks of p before and after one of b steps. */
  lemma AroundOne(b: int, k: int, p: int)
    requires p >= 1 && 0 <= k < b
    ensures k / p + (b - k - 1) / p >= b / p - 1
  {
    var rest := b - k - 1;
    var x, y := k / p, rest / p;
    assert p * (x + y) == p * x + p * y;
    AtMostOneMore(b, p, x + y, k % p + rest % p + 1);
  }

  /** Around an idle time of a minute or more. */
  lemma PausedTakes(cfg: Config, ts: seq<int>)
    requires Packing(cfg, ts) && Idle(cfg) >= MINUTE
    ensures ts[cfg.ipRpd] - ts[0] >= Idle(cfg) + MINUTE * (cfg.ipRpd / Pace(cfg) - 1)
  {
    var b, p := cfg.ipRpd, Pace(cfg);
    var k :| 0 <= k < b && Forgets(cfg, ts, k);
    ApartAtPace(cfg, ts);
    IdleSpan(cfg, ts, 0, k, b);
    ApartSpan(ts, p, MINUTE, 0, k);
    ApartSpan(ts, p, MINUTE, k + 1, b);
    AroundOne(b, k, p);
  }

  /** The part of b in whole blocks of g. */
  lemma WholeBlocks(b: nat, g: int)
    requires g >= 1
    ensures 0 <= g * (b / g) <= b && g * (b / g) / g == b / g && b - g * (b / g) == b % g
  {
    QuotientIs(g * (b / g), g, b / g, 0);
  }

  lemma PausedPackingTakes(cfg: Config, ts: seq<int>)
    requires Packing(cfg, ts) && !AtOnce(cfg) && Idle(cfg) < MINUTE
    ensures ts[cfg.ipRpd] - ts[0] >= Fastest(cfg)
  {
    var e, b, g, d := cfg.ipRpm, cfg.ipRpd, cfg.globalRpm, Idle(cfg);
    var whole := g * (b / g);
    SpacedIsApart(cfg, ts, e, MINUTE, d);
    WholeBlocks(b, g);
    ApartSpan(ts, e, d, 0, b);
    ApartSpan(ts, g, MINUTE, 0, whole);
    ApartSpan(ts, e, d, whole, b);
  }

  lemma PackingTakes(cfg: Config, ts: seq<int>)
    requires Packing(cfg, ts)
    ensures ts[cfg.ipRpd] - ts[0] >= Fastest(cfg)
  {
    var b, d := cfg.ipRpd, Idle(cfg);
    if AtOnce(cfg) {
      var k :| 0 <= k < b && Forgets(cfg, ts, k);
      IdleSpan(cfg, ts, 0, k, b);
    } else if d >= MINUTE {
      PausedTakes(cfg, ts);
    } else {
      PausedPackingTakes(cfg, ts);
    }
  }

  // ----- a packing that takes no longer

  /** The time of the i-th request of the tightest packing. */
  function At(cfg: Config, i: nat): int
    requires Admitting(cfg)
  {
    var e, b, g, d := cfg.ipRpm, cfg.ipRpd, cfg.globalRpm, Idle(cfg);
    if AtOnce(cfg) then (if i < b then 0 else d)
    else if d >= MINUTE then Paused(d, Pace(cfg), i)
    else if d * (g / e) >= MINUTE then d * (i / e)
    else Blocks(d, e, g, i)
  }

  /** At full pace, with one pause before the second minute. */
  function Paused(d: int, p: int, i: nat): int
    requires p >= 1
  {
    if i < p then 0 else d + MINUTE * (i / p - 1)
  }

  /** In each minute g requests, in bursts of e. */
  function Blocks(d: int, e: int, g: int, i: nat): int
    requires e >= 1 && g >= 1
  {
    MINUTE * (i / g) + d * ((i % g) / e)
  }

  function Tight(cfg: Config): (ts: seq<int>)
    requires Admitting(cfg)
  {
    seq(cfg.ipRpd + 1, i requires 0 <= i => At(cfg, i))
  }

  lemma PausedShape(d: int, p: int, i: nat)
    requires p >= 1 && d >= MINUTE
    ensures Paused(d, p, i) <= Paused(d, p, i + 1) && Paused(d, p, i + p) - Paused(d, p, i) >= MINUTE
    ensures Paused(d, p, p) - Paused(d, p, p - 1) == d && Paused(d, p, 0) == 0
  {
    QuotientNext(i, p);
    QuotientGrows(i, i + 1, p);
    QuotientIs(p, p, 1, 0);
    if i < p {
      QuotientIs(i, p, 0, i);
    } else {
      QuotientGrows(p, i, p);
    }
  }

  lemma PausedGrows(d: int, p: int, i: nat, j: nat)
    requires p >= 1 && d >= MINUTE && i <= j
    ensures Paused(d, p, i) <= Paused(d, p, j)
    decreases j - i
  {
    if i < j {
      PausedShape(d, p, i);
      PausedGrows(d, p, i + 1, j);
    }
  }

  /** In bursts: growing, at least a minute after g more, and with a pause within every e. */
  lemma BurstsShape(d: int, e: int, g: int, i: nat)
    requires e >= 1 && g >= 1 && d >= 0 && d * (g / e) >= MINUTE
    ensures d * (i / e) <= d * ((i + 1) / e) && d * ((i + g) / e) - d * (i / e) >= MINUTE
  {
    QuotientGrows(i, i + 1, e);
    TimesGrows(d, i / e, (i + 1) / e);
    QuotientSum(i, g, e);
    TimesGrows(d, i / e + g / e, (i + g) / e);
    assert d * (i / e + g / e) == d * (i / e) + d * (g / e);
  }

  lemma BurstPause(d: int, e: int, i: nat) returns (k: nat)
    requires e >= 1 && d >= 0
    ensures i <= k < i + e && d * ((k + 1) / e) - d * (k / e) == d
  {
    k := i + (e - 1 - i % e);
    assert i == e * (i / e) + i % e;
    QuotientIs(k, e, i / e, e - 1);
    RemainderNext(k, e);
    assert d * (i / e + 1) == d * (i / e) + d;
  }

  lemma BlockEnds(d: int, e: int, g: int)
    requires e >= 1 && g >= 1 && d >= 0 && d * ((g - 1) / e + 1) <= MINUTE
    ensures d * ((g - 1) / e) + d <= MINUTE
  {
    assert d * ((g - 1) / e + 1) == d * ((g - 1) / e) + d;
  }

  /** From the last request of a block to the first of the next there is a pause too. */
  lemma BlockPause(d: int, e: int, g: int, i: nat)
    requires e >= 1 && g >= 1 && d >= 0 && d * ((g - 1) / e + 1) <= MINUTE && i % g == g - 1
    ensures Blocks(d, e, g, i + 1) - Blocks(d, e, g, i) >= d
  {
    RemainderNext(i, g);
    BlockEnds(d, e, g);
    QuotientIs(0, e, 0, 0);
  }

  /** Within a block the requests come in bursts. */
  lemma BlockStep(d: int, e: int, g: int, i: nat)
    requires e >= 1 && g >= 1 && d >= 0 && i % g < g - 1
    ensures Blocks(d, e, g, i + 1) - Blocks(d, e, g, i) == d * ((i % g + 1) / e) - d * ((i % g) / e)
  {
    RemainderNext(i, g);
  }

  lemma BlocksShape(d: int, e: int, g: int, i: nat)
    requires e >= 1 && g >= 1 && d >= 0 && d * ((g - 1) / e + 1) <= MINUTE
    ensures Blocks(d, e, g, i) <= Blocks(d, e, g, i + 1) && Blocks(d, e, g, i + g) - Blocks(d, e, g, i) == MINUTE
  {
    QuotientNext(i, g);
    if i % g == g - 1 {
      BlockPause(d, e, g, i);
    } else {
      BlockStep(d, e, g, i);
      QuotientGrows(i % g, i % g + 1, e);
      TimesGrows(d, (i % g) / e, (i % g + 1) / e);
    }
  }

  lemma BlocksPause(d: int, e: int, g: int, i: nat) returns (k: nat)
    requires e >= 1 && g >= 1 && d >= 0 && d * ((g - 1) / e + 1) <= MINUTE
    ensures i <= k < i + e && Blocks(d, e, g, k + 1) - Blocks(d, e, g, k) >= d
  {
    var x := i % g;
    assert i == g * (i / g) + x;
    if x + e >= g {
      k := i + (g - 1 - x);
      QuotientIs(k, g, i / g, g - 1);
      BlockPause(d, e, g, k);
    } else {
      var m := BurstPause(d, e, x);
      k := i + (m - x);
      QuotientIs(k, g, i / g, m);
      BlockStep(d, e, g, k);
    }
  }

  // ----- the tightest packing is one

  lemma AtGrows(cfg: Config, i: nat)
    requires Admitting(cfg) && Reached(cfg)
    ensures At(cfg, i) <= At(cfg, i + 1)
  {
    var e, g, d := cfg.ipRpm, cfg.globalRpm, Idle(cfg);
    if AtOnce(cfg) {
    } else if d >= MINUTE {
      PausedShape(d, Pace(cfg), i);
    } else if d * (g / e) >= MINUTE {
      BurstsShape(d, e, g, i);
    } else {
      BlocksShape(d, e, g, i);
    }
  }

  lemma AtFar(cfg: Config, i: nat)
    requires Admitting(cfg) && Reached(cfg) && i + cfg.globalRpm <= cfg.ipRpd
    ensures At(cfg, i + cfg.globalRpm) - At(cfg, i) >= MINUTE
  {
    var e, g, d := cfg.ipRpm, cfg.globalRpm, Idle(cfg);
    if d >= MINUTE {
      PausedShape(d, Pace(cfg), i);
      PausedGrows(d, Pace(cfg), i + Pace(cfg), i + g);
    } else if d * (g / e) >= MINUTE {
      BurstsShape(d, e, g, i);
    } else {
      BlocksShape(d, e, g, i);
    }
  }

  lemma AtPauses(cfg: Config, i: nat) returns (k: nat)
    requires Admitting(cfg) && Reached(cfg) && i + cfg.ipRpm <= cfg.ipRpd
    ensures i <= k < i + cfg.ipRpm
    ensures At(cfg, i + cfg.ipRpm) - At(cfg, i) >= MINUTE || At(cfg, k + 1) - At(cfg, k) >= Idle(cfg)
  {
    var e, g, d := cfg.ipRpm, cfg.globalRpm, Idle(cfg);
    k := i + e - 1;
    if AtOnce(cfg) {
    } else if d >= MINUTE {
      PausedShape(d, Pace(cfg), i);
      PausedGrows(d, Pace(cfg), i + Pace(cfg), i + e);
    } else if d * (g / e) >= MINUTE {
      k := BurstPause(d, e, i);
    } else {
      k := BlocksPause(d, e, g, i);
    }
  }

  lemma AtForgets(cfg: Config) returns (k: nat)
    requires Admitting(cfg) && Reached(cfg)
    ensures k < cfg.ipRpd && At(cfg, k + 1) - At(cfg, k) >= Idle(cfg)
  {
    var e, b, g, d := cfg.ipRpm, cfg.ipRpd, cfg.globalRpm, Idle(cfg);
    if AtOnce(cfg) {
      k := b - 1;
    } else if d >= MINUTE {
      k := Pace(cfg) - 1;
      PausedShape(d, Pace(cfg), 0);
    } else if d * (g / e) >= MINUTE {
      k := BurstPause(d, e, 0);
      SmallGroups(d, e, g);
    } else if b >= g {
      k := g - 1;
      QuotientIs(k, g, 0, k);
      BlockPause(d, e, g, k);
    } else {
      k := BlocksPause(d, e, g, 0);
    }
  }

  lemma SmallGroups(d: int, e: int, g: int)
    requires e >= 1 && g >= 1 && d * (g / e) >= MINUTE
    ensures e <= g
  {
    if g < e {
      QuotientIs(g, e, 0, g);
      assert false;
    }
  }

  lemma AtEnds(cfg: Config)
    requires Admitting(cfg)
    ensures At(cfg, 0) == 0 && At(cfg, cfg.ipRpd) == Fastest(cfg)
  {
    QuotientIs(0, cfg.ipRpm, 0, 0);
    QuotientIs(0, cfg.globalRpm, 0, 0);
  }

  lemma {:induction false} AtGrowsTo(cfg: Config, i: nat, j: nat)
    requires Admitting(cfg) && Reached(cfg) && i <= j
    ensures At(cfg, i) <= At(cfg, j)
    decreases j - i
  {
    if i < j {
      AtGrows(cfg, i);
      AtGrowsTo(cfg, i + 1, j);
    }
  }

  lemma TightForgets(cfg: Config, i: nat, k: nat, j: nat)
    requires Admitting(cfg) && i <= k < j <= cfg.ipRpd && At(cfg, k + 1) - At(cfg, k) >= Idle(cfg)
    ensures ForgetsWithin(cfg, Tight(cfg), i, j)
  {
    assert Forgets(cfg, Tight(cfg), k);
  }

  lemma TightAscends(cfg: Config)
    requires Admitting(cfg) && Reached(cfg)
    ensures Ascends(Tight(cfg))
  {
    forall i, j | 0 <= i < j < |Tight(cfg)|
      ensures Tight(cfg)[i] <= Tight(cfg)[j]
    {
      AtGrowsTo(cfg, i, j);
    }
  }

  lemma TightApart(cfg: Config)
    requires Admitting(cfg) && Reached(cfg)
    ensures Apart(Tight(cfg), cfg.globalRpm, MINUTE)
  {
    var ts := Tight(cfg);
    forall i | 0 <= i < |ts|
      ensures ApartAt(ts, cfg.globalRpm, MINUTE, i)
    {
      if i + cfg.globalRpm <= cfg.ipRpd {
        AtFar(cfg, i);
      }
    }
  }

  lemma TightSpaced(cfg: Config)
    requires Admitting(cfg) && Reached(cfg)
    ensures Spaced(cfg, Tight(cfg), cfg.ipRpm, MINUTE)
  {
    var ts := Tight(cfg);
    forall i | 0 <= i < |ts|
      ensures SpacedAt(cfg, ts, cfg.ipRpm, MINUTE, i)
    {
      if i + cfg.ipRpm <= cfg.ipRpd {
        var k := AtPauses(cfg, i);
        if At(cfg, k + 1) - At(cfg, k) >= Idle(cfg) {
          TightForgets(cfg, i, k, i + cfg.ipRpm);
        }
      }
    }
  }

  lemma TightIsPacking(cfg: Config)
    requires Admitting(cfg) && Reached(cfg) && cfg.globalRpd > cfg.ipRpd && Fastest(cfg) < DAY
    ensures Packing(cfg, Tight(cfg))
    ensures Tight(cfg)[0] == 0 && Tight(cfg)[cfg.ipRpd] == Fastest(cfg)
  {
    AtEnds(cfg);
    TightAscends(cfg);
    TightApart(cfg);
    TightSpaced(cfg);
    var k := AtForgets(cfg);
    TightForgets(cfg, 0, k, cfg.ipRpd);
  }

  // ----- the condition

  /** Where one request too many takes a day, in any configuration, every run keeps the daily limit. */
  lemma SafeHolds(cfg: Config, clock: int, ops: seq<Op>, ip: string, a: int)
    requires Safe(cfg) && Timely(ops, clock)
    ensures DayWindowOk(cfg, clock, ops, ip, a)
  {
    forall ts
      ensures !Packing(cfg, ts)
    {
      if Packing(cfg, ts) {
        PackingTakes(cfg, ts);
        assert false;
      }
    }
    UnpackableIsSafe(cfg, clock, ops, ip, a);
  }

  /** Where the least time is reached and less than a day, this run exceeds the limit of the address by one. */
  lemma DailyIpLimitFails(cfg: Config, ip: string)
    requires !Safe(cfg) && Reached(cfg)
    ensures Timely(Visits(cfg, ip, Tight(cfg), 0), 0)
    ensures SumWithin(Of(ip), Run(cfg, Start(0), Visits(cfg, ip, Tight(cfg), 0)).log, -1, DAY - 1) == cfg.ipRpd + 1
  {
    TightIsPacking(cfg);
    PackingExceeds(cfg, ip, Tight(cfg));
  }

  /**
   * Which configurations keep the daily limit of every address in all runs: exactly those that admit
   * nothing, whose global daily limit is no higher, or under which one request more than the limit
   * takes a day. The time is the one given by `Fastest` wherever `Reached` holds.
   */
  lemma DailyIpLimitExactly(cfg: Config)
    ensures Safe(cfg) ==> DailyLimitHolds(cfg)
    ensures Reached(cfg) ==> (DailyLimitHolds(cfg) <==> Safe(cfg))
  {
    if Safe(cfg) {
      forall clock, ops, ip, a
        ensures DayWindowOk(cfg, clock, ops, ip, a)
      {
        if Timely(ops, clock) {
          SafeHolds(cfg, clock, ops, ip, a);
        }
      }
    } else if Reached(cfg) {
      DailyIpLimitFails(cfg, "");
      assert !DayWindowOk(cfg, 0, Visits(cfg, "", Tight(cfg), 0), "", -1);
    }
  }

  /** Whatever the other limits are, the daily limit is kept exactly when prunes spare a day less a millisecond. */
  lemma DailyIpLimitForAllLimits(stale: int)
    ensures (forall cfg: Config | cfg.stalePruneMs == stale :: DailyLimitHolds(cfg)) <==> stale >= DAY - 1
  {
    if stale >= DAY - 1 {
      forall cfg: Config | cfg.stalePruneMs == stale
        ensures DailyLimitHolds(cfg)
      {
        DayOfIdling(cfg);
        DailyIpLimitExactly(cfg);
      }
    } else {
      DailyIpLimitExactly(Config(1, 1, 2, 2, stale));
      assert !Safe(Config(1, 1, 2, 2, stale));
    }
  }

  lemma DayOfIdling(cfg: Config)
    requires cfg.stalePruneMs >= DAY - 1
    ensures Safe(cfg)
  {
    if Admitting(cfg) && !AtOnce(cfg) {
      QuotientIs(Pace(cfg), Pace(cfg), 1, 0);
      QuotientGrows(Pace(cfg), cfg.ipRpd, Pace(cfg));
    }
  }

  const SIX := [0, 3600001, 3660001, 3720001, 3780001, 3840001]

  lemma DeployedTight()
    ensures Tight(SHIPPED) == SIX && !Safe(SHIPPED) && Reached(SHIPPED)
  {
    assert forall i | 0 < i < 6 :: Paused(3600001, 1, i) == 3600001 + MINUTE * (i - 1);
  }

  /** At the deployed limits an address gets through six requests in 64 minutes: one, an idle hour, and five more. */
  lemma DailyIpLimitFailsAsDeployed(ip: string)
    ensures var ops := [Record(ip, 0), Prune(3600001), Record(ip, 3600001), Record(ip, 3660001),
                        Record(ip, 3720001), Record(ip, 3780001), Record(ip, 3840001)];
            && Timely(ops, 0)
            && SumWithin(Of(ip), Run(SHIPPED, Start(0), ops).log, -1, DAY - 1) == 6 > AtLeastZero(SHIPPED.ipRpd)
  {
    DeployedTight();
    DailyIpLimitFails(SHIPPED, ip);
    DeployedVisits(ip);
  }

  lemma DeployedForgets(i: nat)
    ensures Forgets(SHIPPED, SIX, i - 1) <==> i == 1
  {
  }

  lemma DeployedNext(ip: string, i: nat, rest: seq<Op>)
    requires i < 6 && Visits(SHIPPED, ip, SIX, i + 1) == rest
    ensures Visits(SHIPPED, ip, SIX, i)
            == if i == 1 then [Prune(SIX[i]), Record(ip, SIX[i])] + rest else [Record(ip, SIX[i])] + rest
  {
    VisitsCons(SHIPPED, ip, SIX, i);
    DeployedForgets(i);
    assert [Prune(SIX[i])] + ([Record(ip, SIX[i])] + rest) == [Prune(SIX[i]), Record(ip, SIX[i])] + rest;
  }

  lemma DeployedLast(ip: string)
    ensures Visits(SHIPPED, ip, SIX, 3) == [Record(ip, 3720001), Record(ip, 3780001), Record(ip, 3840001)]
  {
    DeployedNext(ip, 5, []);
    DeployedNext(ip, 4, [Record(ip, 3840001)]);
    DeployedNext(ip, 3, [Record(ip, 3780001), Record(ip, 3840001)]);
  }

  lemma SevenInOrder(a: Op, b: Op, c: Op, d: Op, e: Op, f: Op, g: Op)
    ensures [a] + ([b, c] + ([d] + [e, f, g])) == [a, b, c, d, e, f, g]
  {
  }

  lemma DeployedVisits(ip: string)
    ensures Visits(SHIPPED, ip, SIX, 0) == [Record(ip, 0), Prune(3600001), Record(ip, 3600001), Record(ip, 3660001),
                                            Record(ip, 3720001), Record(ip, 3780001), Record(ip, 3840001)]
  {
    var last := Visits(SHIPPED, ip, SIX, 3);
    DeployedNext(ip, 2, last);
    DeployedNext(ip, 1, [Record(ip, SIX[2])] + last);
    DeployedNext(ip, 0, [Prune(SIX[1]), Record(ip, SIX[1])] + ([Record(ip, SIX[2])] + last));
    DeployedLast(ip);
    SevenInOrder(Record(ip, 0), Prune(3600001), Record(ip, 3600001), Record(ip, 3660001),
                 Record(ip, 3720001), Record(ip, 3780001), Record(ip, 3840001));
  }
}
