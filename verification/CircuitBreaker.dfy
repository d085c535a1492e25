/**
 * The circuit breaker: a record per key, a cache over a store, and a cooldown that is evaluated
 * only when somebody looks (src/durable_objects/circuit_breaker).
 */
module CircuitBreaker {
  import opened Text

  datatype Phase = Closed | Open | HalfOpen

  datatype Record = Record(phase: Phase, failures: int, successes: int, lastFailure: Option<int>,
                           lastSuccess: Option<int>, openedAt: Option<int>)

  const FRESH := Record(Closed, 0, 0, None, None, None)

  datatype Config = Config(failureThreshold: int, cooldownMs: int, halfOpenSuccessThreshold: int)

  function Max(a: int, b: int): int { if a > b then a else b }

  // ----- transitions (state_machine.ts)

  predicate CooldownOver(cfg: Config, d: Record, now: int) {
    d.phase.Open? && d.openedAt.Some? && now - d.openedAt.value >= cfg.cooldownMs
  }

  function Cooled(cfg: Config, d: Record, now: int): Record {
    if CooldownOver(cfg, d, now) then d.(phase := HalfOpen, successes := 0) else d
  }

  function Tripped(cfg: Config, d: Record, now: int): Record {
    Record(Open, Max(d.failures, cfg.failureThreshold), 0, Some(now), d.lastSuccess, Some(now))
  }

  function Succeeded(cfg: Config, d: Record, now: int): Record {
    var e := d.(lastSuccess := Some(now));
    match d.phase
    case HalfOpen =>
      if d.successes + 1 >= cfg.halfOpenSuccessThreshold
      then e.(phase := Closed, failures := 0, successes := 0, openedAt := None)
      else e.(successes := d.successes + 1)
    case Closed => e.(failures := 0)
    case Open => e.(phase := Closed, failures := 0, successes := 0, openedAt := None)
  }

  function Failed(cfg: Config, d: Record, now: int): Record {
    var e := d.(lastFailure := Some(now), failures := d.failures + 1);
    match d.phase
    case Closed =>
      if d.failures + 1 >= cfg.failureThreshold then e.(phase := Open, openedAt := Some(now), successes := 0) else e
    case HalfOpen => e.(phase := Open, openedAt := Some(now), successes := 0)
    case Open => e
  }

  /** A record that the transition functions update in place. */
  class BreakerRecord {
    var phase: Phase
    var failures: int
    var successes: int
    var lastFailure: Option<int>
    var lastSuccess: Option<int>
    var openedAt: Option<int>

    function Value(): Record
      reads this
    {
      Record(phase, failures, successes, lastFailure, lastSuccess, openedAt)
    }

    constructor (d: Record)
      ensures Value() == d
    {
      phase, failures, successes := d.phase, d.failures, d.successes;
      lastFailure, lastSuccess, openedAt := d.lastFailure, d.lastSuccess, d.openedAt;
    }

    method EvaluateCooldown(cfg: Config, now: int) returns (transitioned: bool)
      modifies this
      ensures transitioned == CooldownOver(cfg, old(Value()), now)
      ensures Value() == Cooled(cfg, old(Value()), now)
    {
      if phase == Open && openedAt.Some? {
        var elapsed := now - openedAt.value;
        if elapsed >= cfg.cooldownMs {
          phase := HalfOpen;
          successes := 0;
          return true;
        }
      }
      return false;
    }

    method ApplyTrip(cfg: Config, now: int)
      modifies this
      ensures Value() == Tripped(cfg, old(Value()), now)
    {
      phase := Open;
      openedAt := Some(now);
      lastFailure := Some(now);
      failures := Max(failures, cfg.failureThreshold);
      successes := 0;
    }

    method ApplyReset()
      modifies this
      ensures Value() == FRESH
    {
      phase, failures, successes := Closed, 0, 0;
      lastFailure, lastSuccess, openedAt := None, None, None;
    }

    method ApplySuccess(cfg: Config, now: int)
      modifies this
      ensures Value() == Succeeded(cfg, old(Value()), now)
    {
      lastSuccess := Some(now);
      if phase == HalfOpen {
        successes := successes + 1;
        if successes >= cfg.halfOpenSuccessThreshold {
          phase, failures, successes, openedAt := Closed, 0, 0, None;
        }
      } else if phase == Closed {
        failures := 0;
      } else {
        phase, failures, successes, openedAt := Closed, 0, 0, None;
      }
    }

    method ApplyFailure(cfg: Config, now: int)
      modifies this
      ensures Value() == Failed(cfg, old(Value()), now)
    {
      lastFailure := Some(now);
      if phase == Closed {
        failures := failures + 1;
        if failures >= cfg.failureThreshold {
          phase, openedAt, successes := Open, Some(now), 0;
        }
      } else if phase == HalfOpen {
        phase, openedAt, successes := Open, Some(now), 0;
        failures := failures + 1;
      } else {
        failures := failures + 1;
      }
    }
  }

  // ----- cache and store (storage.ts, breaker.ts)

  datatype Store = Store(memory: map<string, Record>, disk: map<string, Record>)

  function OnDisk(s: Store, key: string): Record { if key in s.disk then s.disk[key] else FRESH }

  function Loaded(s: Store, key: string): Record { if key in s.memory then s.memory[key] else OnDisk(s, key) }

  /** `getData`: the record after the lazy cooldown, which is written through when it moved. */
  function Current(cfg: Config, s: Store, key: string, now: int): Record {
    Cooled(cfg, Loaded(s, key), now)
  }

  function AskStep(cfg: Config, s: Store, key: string, now: int): Store {
    var d := Current(cfg, s, key, now);
    Store(s.memory[key := d], if CooldownOver(cfg, Loaded(s, key), now) then s.disk[key := d] else s.disk)
  }

  /** `getDataSync`: moves the cached record only, and only if there is one. */
  function AskSyncStep(cfg: Config, s: Store, key: string, now: int): Store {
    if key in s.memory then s.(memory := s.memory[key := Cooled(cfg, s.memory[key], now)]) else s
  }

  function PutStep(s: Store, key: string, d: Record): Store {
    Store(s.memory[key := d], s.disk[key := d])
  }

  function EvictStep(s: Store): Store { s.(memory := map[]) }

  predicate CanExecute(d: Record) { !d.phase.Open? }

  class Breaker {
    const cfg: Config
    var memory: map<string, Record>
    var disk: map<string, Record>

    ghost function View(): Store
      reads this
    {
      Store(memory, disk)
    }

    constructor (cfg: Config)
      ensures this.cfg == cfg && View() == Store(map[], map[])
    {
      this.cfg := cfg;
      memory, disk := map[], map[];
    }

    method GetData(key: string, now: int) returns (d: Record)
      modifies this
      ensures View() == AskStep(cfg, old(View()), key, now)
      ensures d == Current(cfg, old(View()), key, now)
      ensures var loaded := if key in old(memory) then old(memory)[key]
                            else if key in old(disk) then old(disk)[key] else FRESH;
              && d == Cooled(cfg, loaded, now) && memory == old(memory)[key := d]
              && disk == if d == loaded then old(disk) else old(disk)[key := d]
    {
      if key in memory {
        d := memory[key];
      } else if key in disk {
        d := disk[key];
      } else {
        d := FRESH;
      }
      var record := new BreakerRecord(d);
      var moved := record.EvaluateCooldown(cfg, now);
      d := record.Value();
      memory := memory[key := d];
      if moved {
        disk := disk[key := d];
      }
    }

    method GetDataSync(key: string, now: int) returns (d: Option<Record>)
      modifies this`memory
      ensures View() == AskSyncStep(cfg, old(View()), key, now)
      ensures d == if key in old(memory) then Some(Cooled(cfg, old(memory)[key], now)) else None
      ensures memory == (if d.Some? then old(memory)[key := d.value] else old(memory)) && disk == old(disk)
    {
      if key !in memory {
        return None;
      }
      var record := new BreakerRecord(memory[key]);
      var moved := record.EvaluateCooldown(cfg, now);
      memory := memory[key := record.Value()];
      return Some(record.Value());
    }

    method CanExecuteNow(key: string, now: int) returns (allowed: bool)
      modifies this
      ensures View() == AskStep(cfg, old(View()), key, now)
      ensures allowed == CanExecute(Current(cfg, old(View()), key, now))
    {
      var d := GetData(key, now);
      allowed := d.phase == Closed || d.phase == HalfOpen;
    }

    method Trip(key: string, now: int)
      modifies this
      ensures View() == PutStep(old(View()), key, Tripped(cfg, Current(cfg, old(View()), key, now), now))
    {
      var d := GetData(key, now);
      var record := new BreakerRecord(d);
      record.ApplyTrip(cfg, now);
      Put(key, record.Value());
    }

    method Reset(key: string, now: int)
      modifies this
      ensures View() == PutStep(old(View()), key, FRESH)
    {
      var d := GetData(key, now);
      var record := new BreakerRecord(d);
      record.ApplyReset();
      Put(key, record.Value());
    }

    method RecordSuccess(key: string, now: int)
      modifies this
      ensures View() == PutStep(old(View()), key, Succeeded(cfg, Current(cfg, old(View()), key, now), now))
    {
      var d := GetData(key, now);
      var record := new BreakerRecord(d);
      record.ApplySuccess(cfg, now);
      Put(key, record.Value());
    }

    method RecordFailure(key: string, now: int)
      modifies this
      ensures View() == PutStep(old(View()), key, Failed(cfg, Current(cfg, old(View()), key, now), now))
    {
      var d := GetData(key, now);
      var record := new BreakerRecord(d);
      record.ApplyFailure(cfg, now);
      Put(key, record.Value());
    }

    method Put(key: string, d: Record)
      modifies this
      ensures View() == PutStep(old(View()), key, d)
      ensures memory == old(memory)[key := d] && disk == old(disk)[key := d]
    {
      memory := memory[key := d];
      disk := disk[key := d];
    }

    method ClearMemoryCache()
      modifies this`memory
      ensures View() == EvictStep(old(View()))
      ensures memory == map[] && disk == old(disk)
    {
      memory := map[];
    }
  }
}
