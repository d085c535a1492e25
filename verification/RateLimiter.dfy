/**
 * The per-key rate limiter: a cached and persisted sliding window
 * (src/durable_objects/rate_limiter/window.ts, limiter.ts).
 */
module RateLimiter {
  import opened Text
  import opened Windows

  datatype Entry = Entry(timestamp: int, count: int, cost: int)

  datatype Data = Data(entries: seq<Entry>, totalCost: int, lastRequestTime: Option<int>)

  const FRESH := Data([], 0, None)
  const DEFAULT_RETRY_AFTER_SECONDS := 60

  datatype Config = Config(rpmLimit: int, rpdLimit: int, windowMs: int, dayMs: int, maxBudget: Option<int>)

  datatype Reason = Unrestricted | RpmExceeded | RpdExceeded | BudgetExceeded

  datatype CheckResult = CheckResult(reason: Reason, currentRpm: int, currentRpd: int, accumulated: int,
                                     retryAfterSeconds: int)
  {
    predicate Allowed() { reason.Unrestricted? }
  }

  const COUNT: Lens<Entry> := Lens((e: Entry) => e.timestamp, (e: Entry) => e.count)
  const SPENT: Lens<Entry> := Lens((e: Entry) => e.timestamp, (e: Entry) => e.cost)

  // ----- windows over the entries

  /** `pruneExpiredEntries` */
  function Pruned(d: Data, now: int, dayMs: int): (r: Data) {
    d.(entries := Keep(COUNT, d.entries, now - dayMs))
  }

  /** The backward scan that stops at the first entry outside the window. */
  function TailCount(entries: seq<Entry>, cutoff: int): (r: int) {
    if entries == [] || entries[|entries| - 1].timestamp <= cutoff then 0
    else entries[|entries| - 1].count + TailCount(entries[..|entries| - 1], cutoff)
  }

  function CeilDiv(a: int, b: int): (r: int)
    requires b > 0
    ensures (r - 1) * b < a <= r * b
  {
    (a + b - 1) / b
  }

  function RetryAfter(entries: seq<Entry>, now: int, widthMs: int): (r: int) {
    var k := FirstInside(COUNT, entries, now - widthMs);
    if k == |entries| then DEFAULT_RETRY_AFTER_SECONDS
    else
      var remaining := entries[k].timestamp + widthMs - now;
      if remaining > 0 then CeilDiv(remaining, 1000) else 1
  }

  method CalculateRpm(data: Data, now: int, windowMs: int) returns (count: int)
    ensures count == TailCount(data.entries, now - windowMs)
  {
    var cutoff := now - windowMs;
    count := 0;
    var i := |data.entries| - 1;
    assert data.entries[..i + 1] == data.entries;
    while i >= 0
      invariant -1 <= i < |data.entries|
      invariant count + TailCount(data.entries[..i + 1], cutoff) == TailCount(data.entries, cutoff)
    {
      assert data.entries[..i + 1][..i] == data.entries[..i];
      if data.entries[i].timestamp > cutoff {
        count := count + data.entries[i].count;
      } else {
        break;
      }
      i := i - 1;
    }
  }

  method CalculateRpd(data: Data, now: int, dayMs: int) returns (count: int)
    ensures count == SumAfter(COUNT, data.entries, now - dayMs)
  {
    count := 0;
    for i := 0 to |data.entries|
      invariant count == SumAfter(COUNT, data.entries[..i], now - dayMs)
    {
      assert data.entries[..i + 1] == data.entries[..i] + [data.entries[i]];
      SumAfterSnoc(COUNT, data.entries[..i], data.entries[i], now - dayMs);
      if data.entries[i].timestamp > now - dayMs {
        count := count + data.entries[i].count;
      }
    }
    assert data.entries[..|data.entries|] == data.entries;
  }

  /** Both retry computations of the source, which differ only in the window they are given. */
  method CalculateRetryAfter(data: Data, now: int, widthMs: int) returns (seconds: int)
    ensures seconds == RetryAfter(data.entries, now, widthMs)
  {
    for i := 0 to |data.entries|
      invariant FirstInside(COUNT, data.entries, now - widthMs)
             == i + FirstInside(COUNT, data.entries[i..], now - widthMs)
    {
      assert data.entries[i..][1..] == data.entries[i + 1..];
      if data.entries[i].timestamp > now - widthMs {
        var remaining := data.entries[i].timestamp + widthMs - now;
        return if remaining > 0 then CeilDiv(remaining, 1000) else 1;
      }
    }
    return DEFAULT_RETRY_AFTER_SECONDS;
  }

  function Check(cfg: Config, d: Data, cost: int, now: int): (r: CheckResult) {
    var rpm := TailCount(d.entries, now - cfg.windowMs);
    var rpd := SumAfter(COUNT, d.entries, now - cfg.dayMs);
    if rpm >= cfg.rpmLimit then
      CheckResult(RpmExceeded, rpm, rpd, d.totalCost, RetryAfter(d.entries, now, cfg.windowMs))
    else if rpd >= cfg.rpdLimit then
      CheckResult(RpdExceeded, rpm, rpd, d.totalCost, RetryAfter(d.entries, now, cfg.dayMs))
    else if cfg.maxBudget.Some? && d.totalCost + cost > cfg.maxBudget.value then
      CheckResult(BudgetExceeded, rpm, rpd, d.totalCost, DEFAULT_RETRY_AFTER_SECONDS)
    else
      CheckResult(Unrestricted, rpm, rpd, d.totalCost, 0)
  }

  /** One request added: merged into the last entry when it has the same millisecond. */
  function Bumped(d: Data, cost: int, now: int): (r: Data) {
    var n := |d.entries|;
    var entries :=
      if n > 0 && d.entries[n - 1].timestamp == now then
        d.entries[..n - 1] + [Entry(now, d.entries[n - 1].count + 1, d.entries[n - 1].cost + cost)]
      else d.entries + [Entry(now, 1, cost)];
    Data(entries, d.totalCost + cost, Some(now))
  }

  /** A record after an increment: one request added, old entries pruned. */
  function Updated(cfg: Config, d: Data, cost: int, now: int): (r: Data) {
    Pruned(Bumped(d, cost, now), now, cfg.dayMs)
  }

  // ----- cache and storage

  datatype Store = Store(memory: map<string, Data>, disk: map<string, Data>)

  function OnDisk(s: Store, key: string): Data { if key in s.disk then s.disk[key] else FRESH }

  function Loaded(s: Store, key: string): Data { if key in s.memory then s.memory[key] else OnDisk(s, key) }

  /** What `getData` returns, and leaves in the cache. */
  function Current(cfg: Config, s: Store, key: string, now: int): Data {
    Pruned(Loaded(s, key), now, cfg.dayMs)
  }

  function ReadStep(cfg: Config, s: Store, key: string, now: int): Store {
    s.(memory := s.memory[key := Current(cfg, s, key, now)])
  }

  function SyncReadStep(cfg: Config, s: Store, key: string, now: int): Store {
    if key in s.memory then ReadStep(cfg, s, key, now) else s
  }

  function IncrementStep(cfg: Config, s: Store, key: string, cost: int, now: int): Store {
    var d := Updated(cfg, Current(cfg, s, key, now), cost, now);
    Store(s.memory[key := d], s.disk[key := d])
  }

  function ResetStep(s: Store, key: string): Store {
    Store(s.memory[key := FRESH], s.disk[key := FRESH])
  }

  function EvictStep(s: Store): Store { s.(memory := map[]) }

  /** The limiter as the Durable Object holds it. Stored values are copies, so the cache and the disk share nothing. */
  class Limiter {
    const cfg: Config
    var memory: map<string, Data>
    var disk: map<string, Data>

    ghost function View(): Store
      reads this
    {
      Store(memory, disk)
    }

    constructor (cfg: Config, disk: map<string, Data>)
      ensures this.cfg == cfg && View() == Store(map[], disk)
    {
      this.cfg := cfg;
      this.memory, this.disk := map[], disk;
    }

    method GetData(key: string, now: int) returns (data: Data)
      modifies this`memory
      ensures View() == ReadStep(cfg, old(View()), key, now)
      ensures data == Current(cfg, old(View()), key, now)
      ensures key in old(memory) ==> data == Pruned(old(memory)[key], now, cfg.dayMs)
      ensures memory == old(memory)[key := data] && disk == old(disk)
    {
      if key in memory {
        data := memory[key];
      } else if key in disk {
        data := disk[key];
      } else {
        data := FRESH;
      }
      data := Pruned(data, now, cfg.dayMs);
      memory := memory[key := data];
    }

    method GetDataSync(key: string, now: int) returns (data: Option<Data>)
      modifies this`memory
      ensures View() == SyncReadStep(cfg, old(View()), key, now)
      ensures data == if key in old(memory) then Some(Current(cfg, old(View()), key, now)) else None
      ensures memory == (if data.Some? then old(memory)[key := data.value] else old(memory)) && disk == old(disk)
    {
      if key in memory {
        var d := GetData(key, now);
        data := Some(d);
      } else {
        data := None;
      }
    }

    method CheckLimitDetailed(key: string, cost: int, now: int) returns (r: CheckResult)
      modifies this`memory
      ensures View() == ReadStep(cfg, old(View()), key, now)
      ensures r == Check(cfg, Current(cfg, old(View()), key, now), cost, now)
      ensures key in memory && memory == old(memory)[key := memory[key]] && disk == old(disk)
    {
      var data := GetData(key, now);
      r := CheckData(data, cost, now);
    }

    method CheckData(data: Data, cost: int, now: int) returns (r: CheckResult)
      ensures r == Check(cfg, data, cost, now)
    {
      var rpm := CalculateRpm(data, now, cfg.windowMs);
      var rpd := CalculateRpd(data, now, cfg.dayMs);
      if rpm >= cfg.rpmLimit {
        var after := CalculateRetryAfter(data, now, cfg.windowMs);
        return CheckResult(RpmExceeded, rpm, rpd, data.totalCost, after);
      }
      if rpd >= cfg.rpdLimit {
        var after := CalculateRetryAfter(data, now, cfg.dayMs);
        return CheckResult(RpdExceeded, rpm, rpd, data.totalCost, after);
      }
      if cfg.maxBudget.Some? && data.totalCost + cost > cfg.maxBudget.value {
        return CheckResult(BudgetExceeded, rpm, rpd, data.totalCost, DEFAULT_RETRY_AFTER_SECONDS);
      }
      return CheckResult(Unrestricted, rpm, rpd, data.totalCost, 0);
    }

    method Increment(key: string, cost: int, now: int)
      modifies this
      ensures View() == IncrementStep(cfg, old(View()), key, cost, now)
      ensures key in memory && memory == old(memory)[key := memory[key]] && disk == old(disk)[key := memory[key]]
    {
      var data := GetData(key, now);
      data := Update(data, cost, now);
      Put(key, data);
    }

    method Put(key: string, data: Data)
      modifies this
      ensures memory == old(memory)[key := data] && disk == old(disk)[key := data]
    {
      memory := memory[key := data];
      disk := disk[key := data];
    }

    method Update(data: Data, cost: int, now: int) returns (r: Data)
      ensures r == Updated(cfg, data, cost, now)
    {
      r := AppendOrMerge(data, cost, now);
      r := Pruned(r, now, cfg.dayMs);
    }

    static method AppendOrMerge(data: Data, cost: int, now: int) returns (r: Data)
      ensures r == Bumped(data, cost, now)
    {
      r := data.(lastRequestTime := Some(now), totalCost := data.totalCost + cost);
      var n := |r.entries|;
      if n > 0 && r.entries[n - 1].timestamp == now {
        var last := r.entries[n - 1];
        r := r.(entries := r.entries[..n - 1] + [Entry(now, last.count + 1, last.cost + cost)]);
      } else {
        r := r.(entries := r.entries + [Entry(now, 1, cost)]);
      }
    }

    /** Admission as the middleware does it: a check, and an increment only when it allows the request. */
    method Admit(key: string, cost: int, checkedAt: int, now: int) returns (r: CheckResult)
      modifies this
      ensures r == Check(cfg, Current(cfg, old(View()), key, checkedAt), cost, checkedAt)
      ensures View() == AdmitStep(cfg, old(View()), key, cost, checkedAt, now)
    {
      r := CheckLimitDetailed(key, cost, checkedAt);
      if r.Allowed() {
        Increment(key, cost, now);
      }
    }

    method Reset(key: string)
      modifies this
      ensures View() == ResetStep(old(View()), key)
      ensures memory == old(memory)[key := FRESH] && disk == old(disk)[key := FRESH]
    {
      memory := memory[key := FRESH];
      disk := disk[key := FRESH];
    }

    method ClearMemoryCache()
      modifies this`memory
      ensures View() == EvictStep(old(View()))
      ensures memory == map[] && disk == old(disk)
    {
      memory := map[];
    }
  }

  function AdmitStep(cfg: Config, s: Store, key: string, cost: int, checkedAt: int, now: int): Store {
    var checked := ReadStep(cfg, s, key, checkedAt);
    if Check(cfg, Current(cfg, s, key, checkedAt), cost, checkedAt).Allowed()
    then IncrementStep(cfg, checked, key, cost, now)
    else checked
  }
}
