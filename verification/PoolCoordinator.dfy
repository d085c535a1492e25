/** The pool coordinator: five-minute volumes and the 60-second emergency brake (src/pool/coordinator_do.ts). */
module PoolCoordinator {
  import opened Windows
  import opened Ledger

  const FIVE_MINUTES := 300000
  const BRAKE_MS := 60000

  datatype Volume = Volume(volume: int, timestamp: int)

  const VOLUME: Lens<Volume> := Lens((v: Volume) => v.timestamp, (v: Volume) => v.volume)

  /** Volumes are kept in memory only; brakes are written to storage (`disk`) whenever they change. */
  datatype State = State(volumes: map<string, seq<Volume>>, brakes: map<string, int>, disk: map<string, int>)

  function Vols(s: State, tenant: string): seq<Volume> {
    if tenant in s.volumes then s.volumes[tenant] else []
  }

  /** More than 35% of the pool, in whole numbers. */
  predicate OverShare(tenantTotal: int, poolTotal: int) { poolTotal > 0 && 100 * tenantTotal > 35 * poolTotal }

  function Cleaned(m: map<string, seq<Volume>>, cutoff: int): map<string, seq<Volume>> {
    map t | t in m :: Keep(VOLUME, m[t], cutoff)
  }

  /** A map of volumes cleaned except for the tenants in `rest`. */
  function Partly(m: map<string, seq<Volume>>, cutoff: int, rest: set<string>): map<string, seq<Volume>> {
    map t | t in m :: if t in rest then m[t] else Keep(VOLUME, m[t], cutoff)
  }

  lemma PartlyEnds(m: map<string, seq<Volume>>, cutoff: int)
    ensures Partly(m, cutoff, m.Keys) == m && Partly(m, cutoff, {}) == Cleaned(m, cutoff)
  {
  }

  lemma PartlyStep(m: map<string, seq<Volume>>, cutoff: int, rest: set<string>, t: string)
    requires t in rest && rest <= m.Keys
    ensures Partly(m, cutoff, rest)[t] == m[t]
    ensures Partly(m, cutoff, rest)[t := Keep(VOLUME, m[t], cutoff)] == Partly(m, cutoff, rest - {t})
  {
  }

  /** The volumes after a report: the new one added, everything older than five minutes gone. */
  function Reported(s: State, tenant: string, volume: int, now: int): map<string, seq<Volume>> {
    Cleaned(s.volumes[tenant := Vols(s, tenant) + [Volume(volume, now)]], now - FIVE_MINUTES)
  }

  /** Cleaning the reporting tenant's list first makes no difference. */
  lemma ReportedInSteps(s: State, tenant: string, volume: int, now: int)
    ensures var cutoff := now - FIVE_MINUTES;
            var vols := Keep(VOLUME, Vols(s, tenant) + [Volume(volume, now)], cutoff);
            && Cleaned(s.volumes[tenant := vols], cutoff) == Reported(s, tenant, volume, now)
            && Reported(s, tenant, volume, now)[tenant] == vols
  {
    KeepTwice(VOLUME, Vols(s, tenant) + [Volume(volume, now)], now - FIVE_MINUTES, now - FIVE_MINUTES);
  }

  function TotalOf(m: map<string, seq<Volume>>): string -> int {
    (t: string) => if t in m then SumAll(VOLUME, m[t]) else 0
  }

  ghost predicate Brakes(s: State, tenant: string, volume: int, now: int) {
    var m := Reported(s, tenant, volume, now);
    OverShare(TotalOf(m)(tenant), SumOver(m.Keys, TotalOf(m)))
  }

  ghost function ReportStep(s: State, tenant: string, volume: int, now: int): State {
    var braked := s.brakes[tenant := now + BRAKE_MS];
    if Brakes(s, tenant, volume, now) then State(Reported(s, tenant, volume, now), braked, braked)
    else State(Reported(s, tenant, volume, now), s.brakes, s.disk)
  }

  /** An expiry of 0 is falsy in the source, as an absent one is. */
  predicate Braked(s: State, tenant: string, now: int) {
    tenant in s.brakes && s.brakes[tenant] != 0 && now < s.brakes[tenant]
  }

  /** Cleaned, without the tenants that keep nothing. */
  function Swept(m: map<string, seq<Volume>>, cutoff: int): map<string, seq<Volume>> {
    map t | t in m && Keep(VOLUME, m[t], cutoff) != [] :: Keep(VOLUME, m[t], cutoff)
  }

  /** Swept except for the tenants in `rest`. */
  function PartlySwept(m: map<string, seq<Volume>>, cutoff: int, rest: set<string>): map<string, seq<Volume>> {
    map t | t in m && (t in rest || Keep(VOLUME, m[t], cutoff) != [])
      :: if t in rest then m[t] else Keep(VOLUME, m[t], cutoff)
  }

  function AlarmStep(s: State, now: int): State {
    var running := map t | t in s.brakes && now <= s.brakes[t] :: s.brakes[t];
    State(Swept(s.volumes, now - FIVE_MINUTES), running, if running == s.brakes then s.disk else running)
  }

  /** A new instance over the same storage. */
  function RestartStep(s: State): State { State(map[], s.disk, s.disk) }

  class Coordinator {
    var volumes: map<string, seq<Volume>>
    var brakes: map<string, int>
    var disk: map<string, int>

    ghost function View(): State
      reads this
    {
      State(volumes, brakes, disk)
    }

    constructor (disk: map<string, int>)
      ensures View() == State(map[], disk, disk)
    {
      volumes, brakes, this.disk := map[], disk, disk;
    }

    static method TotalVolume(vols: seq<Volume>) returns (total: int)
      ensures total == SumAll(VOLUME, vols)
    {
      total := 0;
      for i := 0 to |vols|
        invariant total == SumAll(VOLUME, vols[..i])
      {
        assert vols[..i + 1] == vols[..i] + [vols[i]];
        SumAllSnoc(VOLUME, vols[..i], vols[i]);
        total := total + vols[i].volume;
      }
      assert vols[..|vols|] == vols;
    }

    /** Sums up the pool and drops what is older than the cutoff, tenant by tenant. */
    method CleanAndTotal(cutoff: int) returns (total: int)
      modifies this`volumes
      ensures volumes == Cleaned(old(volumes), cutoff)
      ensures total == SumOver(volumes.Keys, TotalOf(volumes))
    {
      ghost var before, after := volumes, Cleaned(volumes, cutoff);
      PartlyEnds(before, cutoff);
      total := 0;
      var rest := volumes.Keys;
      while rest != {}
        invariant rest <= before.Keys && volumes == Partly(before, cutoff, rest)
        invariant total + SumOver(rest, TotalOf(after)) == SumOver(before.Keys, TotalOf(after))
        decreases |rest|
      {
        var t :| t in rest;
        PartlyStep(before, cutoff, rest, t);
        var sum := CleanOne(t, cutoff);
        SumOverPick(rest, TotalOf(after), t);
        total := total + sum;
        rest := rest - {t};
      }
    }

    method CleanOne(t: string, cutoff: int) returns (total: int)
      requires t in volumes
      modifies this`volumes
      ensures volumes == old(volumes)[t := Keep(VOLUME, old(volumes)[t], cutoff)]
      ensures total == SumAll(VOLUME, Keep(VOLUME, old(volumes)[t], cutoff))
    {
      var recent := Keep(VOLUME, volumes[t], cutoff);
      total := TotalVolume(recent);
      volumes := volumes[t := recent];
    }

    /** Adds the report, and tells whether the tenant's fresh total is more than its share of the pool's. */
    method AddVolume(tenant: string, volume: int, now: int) returns (over: bool)
      modifies this`volumes
      ensures volumes == Reported(old(View()), tenant, volume, now)
      ensures over == Brakes(old(View()), tenant, volume, now)
    {
      var cutoff := now - FIVE_MINUTES;
      var vols := if tenant in volumes then volumes[tenant] else [];
      vols := Keep(VOLUME, vols + [Volume(volume, now)], cutoff);
      volumes := volumes[tenant := vols];
      var tenantTotal := TotalVolume(vols);
      var poolTotal := CleanAndTotal(cutoff);
      ReportedInSteps(old(View()), tenant, volume, now);
      over := poolTotal > 0 && 100 * tenantTotal > 35 * poolTotal;
    }

    method ReportVolume(tenant: string, volume: int, now: int) returns (brakeApplied: bool)
      modifies this
      ensures brakeApplied == Brakes(old(View()), tenant, volume, now)
      ensures View() == ReportStep(old(View()), tenant, volume, now)
    {
      brakeApplied := AddVolume(tenant, volume, now);
      if brakeApplied {
        brakes := brakes[tenant := now + BRAKE_MS];
        disk := brakes;
      }
    }

    method BrakeStatus(tenant: string, now: int) returns (braked: bool)
      ensures braked == Braked(View(), tenant, now)
      ensures braked <==> tenant in brakes && brakes[tenant] != 0 && now < brakes[tenant]
    {
      braked := tenant in brakes && brakes[tenant] != 0 && now < brakes[tenant];
    }

    method Alarm(now: int)
      modifies this
      ensures View() == AlarmStep(old(View()), now)
    {
      var changed := CleanBrakes(now);
      if changed {
        disk := brakes;
      }
      CleanVolumes(now - FIVE_MINUTES);
    }

    method CleanBrakes(now: int) returns (changed: bool)
      modifies this`brakes
      ensures brakes == map t | t in old(brakes) && now <= old(brakes)[t] :: old(brakes)[t]
      ensures changed <==> brakes != old(brakes)
    {
      ghost var before := brakes;
      var rest := brakes.Keys;
      changed := false;
      while rest != {}
        invariant rest <= before.Keys
        invariant brakes == map t | t in before && (t in rest || now <= before[t]) :: before[t]
        invariant changed <==> exists t | t in before :: t !in rest && now > before[t]
        decreases |rest|
      {
        var t :| t in rest;
        if now > brakes[t] {
          brakes := brakes - {t};
          changed := true;
        }
        rest := rest - {t};
      }
      if changed {
        ghost var t :| t in before && now > before[t];
        assert t !in brakes;
      }
    }

    method CleanVolumes(cutoff: int)
      modifies this`volumes
      ensures volumes == Swept(old(volumes), cutoff)
    {
      ghost var before := volumes;
      var rest := volumes.Keys;
      while rest != {}
        invariant rest <= before.Keys && volumes == PartlySwept(before, cutoff, rest)
        decreases |rest|
      {
        var t :| t in rest;
        var recent := Keep(VOLUME, volumes[t], cutoff);
        if recent == [] {
          volumes := volumes - {t};
        } else {
          volumes := volumes[t := recent];
        }
        rest := rest - {t};
      }
    }
  }
}
