/**
 * The per-tenant quota object: hierarchical request limits and debt, cached and persisted
 * (src/quota/tenant/tenant_do.ts, evaluator.ts, src/quota/limits.ts).
 */
module TenantQuota {
  import opened Text
  import opened Windows
  import opened Debt

  datatype Tier = Admin | Ultra | MaxTier | Builder | Probationary | Demo | Suspended

  /** Requests per minute and per day; None is no limit. */
  datatype TierLimits = TierLimits(rpm: Option<int>, rpd: Option<int>)

  function Limits(tier: Tier): TierLimits {
    match tier
    case Admin => TierLimits(None, None)
    case Ultra => TierLimits(None, None)
    case MaxTier => TierLimits(Some(60), Some(10000))
    case Builder => TierLimits(Some(20), Some(2000))
    case Probationary => TierLimits(Some(2), Some(50))
    case Demo => TierLimits(Some(20), Some(2000))
    case Suspended => TierLimits(Some(0), Some(0))
  }

  function Min(a: int, b: int): int { if a < b then a else b }

  /** `calculateProjectQuota`: a sub-cap never lifts the tier's own limit. */
  function ProjectLimit(tier: Tier, subCap: Option<int>): Option<int> {
    var limit := Limits(tier).rpm;
    if subCap.None? then limit
    else if limit.None? then subCap
    else Some(Min(limit.value, subCap.value))
  }

  datatype Entry = Entry(timestamp: int, count: int, cost: int, project: Option<string>)

  datatype Request = Request(tenant: Option<string>, project: Option<string>, tier: Option<Tier>,
                             subCap: Option<int>, cost: int, count: Option<int>, checkOnly: bool)

  datatype Verdict = Admitted | WouldAdmit | WrongTenant | UserExhausted | UserDailyExhausted | SubCapExceeded

  datatype Decision = Decision(verdict: Verdict, currentRpm: int, currentRpd: int,
                               currentProjectRpm: Option<int>, retryAfterSeconds: Option<int>)

  datatype Config = Config(tenant: string, initialTier: Tier, rpmMs: int, rpdMs: int)

  /** An empty project name counts as none. */
  function Project(r: Request): Option<string> { if r.project == Some("") then None else r.project }

  function Weight(r: Request): (n: int)
    ensures n >= 1
  {
    if r.count.Some? && r.count.value > 0 then r.count.value else 1
  }

  predicate Counts(e: Entry, project: Option<string>) { project.None? || e.project == project }

  /** Usage of the whole tenant, or of one of its projects. */
  function Usage(project: Option<string>): Lens<Entry> {
    Lens((e: Entry) => e.timestamp, (e: Entry) => if Counts(e, project) then e.count else 0)
  }

  const SPENT: Lens<Entry> := Lens((e: Entry) => e.timestamp, (e: Entry) => e.cost)

  method CalculateUsage(entries: seq<Entry>, widthMs: int, now: int, project: Option<string>) returns (count: int)
    ensures count == SumAfter(Usage(project), entries, now - widthMs)
  {
    count := 0;
    for i := 0 to |entries|
      invariant count == SumAfter(Usage(project), entries[..i], now - widthMs)
    {
      assert entries[..i + 1] == entries[..i] + [entries[i]];
      SumAfterSnoc(Usage(project), entries[..i], entries[i], now - widthMs);
      if entries[i].timestamp > now - widthMs {
        if project.None? || entries[i].project == project {
          count := count + entries[i].count;
        }
      }
    }
    assert entries[..|entries|] == entries;
  }

  function RetryAfter(entries: seq<Entry>, widthMs: int, now: int): (r: int)
    ensures r >= 1
  {
    var k := FirstInside(SPENT, entries, now - widthMs);
    if k == |entries| then 60
    else
      var seconds := (entries[k].timestamp + widthMs - now + 999) / 1000;
      if seconds > 1 then seconds else 1
  }

  method CalculateRpmRetryAfter(entries: seq<Entry>, widthMs: int, now: int) returns (seconds: int)
    ensures seconds == RetryAfter(entries, widthMs, now)
  {
    for i := 0 to |entries|
      invariant FirstInside(SPENT, entries, now - widthMs) == i + FirstInside(SPENT, entries[i..], now - widthMs)
    {
      assert entries[i..][1..] == entries[i + 1..];
      if entries[i].timestamp > now - widthMs {
        var diff := entries[i].timestamp + widthMs - now;
        var s := (diff + 999) / 1000;
        return if s > 1 then s else 1;
      }
    }
    return 60;
  }

  predicate Over(limit: Option<int>, current: int, added: int) {
    limit.Some? && current + added > limit.value
  }

  function Evaluate(cfg: Config, tier: Tier, entries: seq<Entry>, r: Request, now: int): (d: Decision) {
    var effective := if r.tier.Some? then r.tier.value else tier;
    var limits, n, project := Limits(effective), Weight(r), Project(r);
    var rpm := SumAfter(Usage(None), entries, now - cfg.rpmMs);
    var rpd := SumAfter(Usage(None), entries, now - cfg.rpdMs);
    if Over(limits.rpm, rpm, n) then
      Decision(UserExhausted, rpm, rpd, None, Some(RetryAfter(entries, cfg.rpmMs, now)))
    else if Over(limits.rpd, rpd, n) then
      Decision(UserDailyExhausted, rpm, rpd, None, Some(86400))
    else
      var used := SumAfter(Usage(project), entries, now - cfg.rpmMs);
      if project.Some? && Over(ProjectLimit(effective, r.subCap), used, n) then
        Decision(SubCapExceeded, rpm, rpd, Some(used), Some(RetryAfter(entries, cfg.rpmMs, now)))
      else if r.checkOnly then
        Decision(WouldAdmit, rpm, rpd, if project.Some? then Some(used) else None, None)
      else
        Decision(Admitted, rpm + n, rpd + n, if project.Some? then Some(used + n) else None, None)
  }

  function NewEntry(r: Request, now: int): Entry { Entry(now, Weight(r), r.cost, Project(r)) }

  method EvaluateQuota(cfg: Config, tier: Tier, entries: seq<Entry>, r: Request, now: int) returns (d: Decision)
    ensures d == Evaluate(cfg, tier, entries, r, now)
  {
    var effective := if r.tier.Some? then r.tier.value else tier;
    var limits, n, project := Limits(effective), Weight(r), Project(r);
    var rpm := CalculateUsage(entries, cfg.rpmMs, now, None);
    var rpd := CalculateUsage(entries, cfg.rpdMs, now, None);
    if limits.rpm.Some? && rpm + n > limits.rpm.value {
      var after := CalculateRpmRetryAfter(entries, cfg.rpmMs, now);
      return Decision(UserExhausted, rpm, rpd, None, Some(after));
    }
    if limits.rpd.Some? && rpd + n > limits.rpd.value {
      return Decision(UserDailyExhausted, rpm, rpd, None, Some(86400));
    }
    var used := None;
    if project.Some? {
      var limit := ProjectLimit(effective, r.subCap);
      var u := CalculateUsage(entries, cfg.rpmMs, now, project);
      used := Some(u);
      if limit.Some? && u + n > limit.value {
        var after := CalculateRpmRetryAfter(entries, cfg.rpmMs, now);
        return Decision(SubCapExceeded, rpm, rpd, used, Some(after));
      }
    }
    if r.checkOnly {
      return Decision(WouldAdmit, rpm, rpd, used, None);
    }
    return Decision(Admitted, rpm + n, rpd + n, if used.Some? then Some(used.value + n) else None, None);
  }

  // ----- the object and its storage

  datatype Saved = Saved(tier: Tier, entries: seq<Entry>, totalCost: int, standing: Standing)

  datatype State = State(now: Saved, loaded: bool, disk: Option<Saved>)

  function Fresh(cfg: Config): Saved { Saved(cfg.initialTier, [], 0, INITIAL) }

  function Prune(cfg: Config, d: Saved, now: int): Saved {
    d.(entries := Keep(SPENT, d.entries, now - cfg.rpdMs))
  }

  function Load(cfg: Config, s: State, now: int): State {
    if s.loaded then s
    else State(Prune(cfg, if s.disk.Some? then s.disk.value else s.now, now), true, s.disk)
  }

  function Save(cfg: Config, s: State, now: int): State {
    var d := Prune(cfg, s.now, now);
    State(d, s.loaded, Some(d))
  }

  predicate Foreign(cfg: Config, r: Request) {
    r.tenant.Some? && r.tenant.value != "" && r.tenant.value != cfg.tenant
  }

  /** The object as a request finds it: loaded and pruned. */
  function Ready(cfg: Config, s: State, now: int): State {
    var l := Load(cfg, s, now);
    l.(now := Prune(cfg, l.now, now))
  }

  function ConsumeDecision(cfg: Config, s: State, r: Request, now: int): Decision {
    if Foreign(cfg, r) then Decision(WrongTenant, 0, 0, None, None)
    else var l := Ready(cfg, s, now); Evaluate(cfg, l.now.tier, l.now.entries, r, now)
  }

  /** One admission on top of a state. */
  function Added(s: State, r: Request, now: int): State {
    s.(now := s.now.(entries := s.now.entries + [NewEntry(r, now)], totalCost := s.now.totalCost + r.cost))
  }

  function ConsumeStep(cfg: Config, s: State, r: Request, now: int): State {
    if Foreign(cfg, r) then s
    else
      var l := Ready(cfg, s, now);
      if Evaluate(cfg, l.now.tier, l.now.entries, r, now).verdict.Admitted? then Save(cfg, Added(l, r, now), now) else l
  }

  function ResetStep(cfg: Config, s: State, now: int): State {
    var l := Load(cfg, s, now);
    Save(cfg, l.(now := l.now.(entries := [], totalCost := 0)), now)
  }

  function TierStep(cfg: Config, s: State, tier: Tier, now: int): State {
    var l := Load(cfg, s, now);
    Save(cfg, l.(now := l.now.(tier := tier)), now)
  }

  function StandingStep(cfg: Config, s: State, standing: Standing, now: int): State {
    var l := Load(cfg, s, now);
    Save(cfg, l.(now := l.now.(standing := standing)), now)
  }

  /** `clearMemoryCache`: the entries and the cost go, the other fields stay until the next load. */
  function ClearStep(s: State): State {
    State(s.now.(entries := [], totalCost := 0), false, s.disk)
  }

  /** A new instance over the same storage. */
  function RestartStep(cfg: Config, s: State): State { State(Fresh(cfg), false, s.disk) }

  class TenantQuotaDO {
    const cfg: Config
    var tier: Tier
    var entries: seq<Entry>
    var totalCost: int
    var standing: Standing
    var loaded: bool
    var disk: Option<Saved>

    ghost function View(): State
      reads this
    {
      State(Saved(tier, entries, totalCost, standing), loaded, disk)
    }

    constructor (cfg: Config, disk: Option<Saved>)
      ensures this.cfg == cfg && View() == State(Fresh(cfg), false, disk)
    {
      this.cfg := cfg;
      tier, entries, totalCost, standing, loaded := cfg.initialTier, [], 0, INITIAL, false;
      this.disk := disk;
    }

    method PruneEntries(now: int)
      modifies this`entries
      ensures View() == old(View()).(now := Prune(cfg, old(View()).now, now))
      ensures forall i | 0 <= i < |entries| :: entries[i].timestamp > now - cfg.rpdMs
    {
      KeptIsLater(SPENT, entries, now - cfg.rpdMs);
      entries := Keep(SPENT, entries, now - cfg.rpdMs);
    }

    method Persist(now: int)
      modifies this`entries, this`disk
      ensures View() == Save(cfg, old(View()), now)
      ensures disk == Some(Saved(tier, entries, totalCost, standing))
      ensures forall i | 0 <= i < |entries| :: entries[i].timestamp > now - cfg.rpdMs
    {
      PruneEntries(now);
      disk := Some(Saved(tier, entries, totalCost, standing));
    }

    method EnsureLoaded(now: int)
      modifies this
      ensures View() == Load(cfg, old(View()), now)
      ensures loaded && (!old(loaded) ==> forall i | 0 <= i < |entries| :: entries[i].timestamp > now - cfg.rpdMs)
    {
      if loaded {
        return;
      }
      if disk.Some? {
        var stored := disk.value;
        tier, entries, totalCost, standing := stored.tier, stored.entries, stored.totalCost, stored.standing;
      }
      PruneEntries(now);
      loaded := true;
    }

    method ConsumeQuota(r: Request, now: int) returns (d: Decision)
      modifies this
      ensures d == ConsumeDecision(cfg, old(View()), r, now)
      ensures View() == ConsumeStep(cfg, old(View()), r, now)
    {
      if r.tenant.Some? && r.tenant.value != "" && r.tenant.value != cfg.tenant {
        return Decision(WrongTenant, 0, 0, None, None);
      }
      MakeReady(now);
      d := EvaluateQuota(cfg, tier, entries, r, now);
      if d.verdict.Admitted? {
        AddEntry(r, now);
        Persist(now);
      }
    }

    method MakeReady(now: int)
      modifies this
      ensures View() == Ready(cfg, old(View()), now)
    {
      EnsureLoaded(now);
      PruneEntries(now);
    }

    method AddEntry(r: Request, now: int)
      modifies this`entries, this`totalCost
      ensures View() == Added(old(View()), r, now)
    {
      entries := entries + [Entry(now, Weight(r), r.cost, Project(r))];
      totalCost := totalCost + r.cost;
    }

    method Reset(now: int)
      modifies this
      ensures View() == ResetStep(cfg, old(View()), now)
    {
      EnsureLoaded(now);
      entries, totalCost := [], 0;
      Persist(now);
    }

    method SetTier(newTier: Tier, now: int)
      modifies this
      ensures View() == TierStep(cfg, old(View()), newTier, now)
    {
      EnsureLoaded(now);
      tier := newTier;
      Persist(now);
    }

    method AccrueDebt(weight: int, now: int)
      modifies this
      ensures View() == StandingStep(cfg, old(View()), Accrue(Load(cfg, old(View()), now).now.standing, weight), now)
    {
      EnsureLoaded(now);
      var debt := standing.debt + weight;
      standing := standing.(debt := debt, ceiling := Ceiling(debt, standing.contributed, standing.trusted));
      Persist(now);
    }

    method DecrementDebt(weight: int, now: int)
      modifies this
      ensures View() == StandingStep(cfg, old(View()), Decrement(Load(cfg, old(View()), now).now.standing, weight), now)
    {
      EnsureLoaded(now);
      var debt := if standing.debt > weight then standing.debt - weight else 0;
      var contributed := standing.contributed + weight;
      standing := Standing(debt, contributed, standing.trusted, standing.debtFreeDays,
                           Ceiling(debt, contributed, standing.trusted));
      Persist(now);
    }

    method Alarm(now: int)
      modifies this
      ensures View() == StandingStep(cfg, old(View()), DailyReset(Load(cfg, old(View()), now).now.standing), now)
    {
      EnsureLoaded(now);
      standing := ProcessDailyDebtReset(standing);
      Persist(now);
    }

    method ClearMemoryCache()
      modifies this
      ensures View() == ClearStep(old(View()))
      ensures entries == [] && totalCost == 0 && !loaded && disk == old(disk)
      ensures tier == old(tier) && standing == old(standing)
    {
      entries, totalCost, loaded := [], 0, false;
    }
  }
}
