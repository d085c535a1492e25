/** Every field of a breaker's record, told from the history of its key (src/durable_objects/circuit_breaker). */
module BreakerRecords {
  import opened Text
  import opened CircuitBreaker
  import opened BreakerRuns

  /** The last failure or trip since the last reset. */
  function LastFailureAt(h: seq<Happening>): (t: Option<int>) {
    if h == [] || h[|h| - 1].kind.ResetKind? then None
    else if h[|h| - 1].kind.FailureKind? || h[|h| - 1].kind.TripKind? then Some(h[|h| - 1].time)
    else LastFailureAt(h[..|h| - 1])
  }

  /** The last success since the last reset. */
  function LastSuccessAt(h: seq<Happening>): (t: Option<int>) {
    if h == [] || h[|h| - 1].kind.ResetKind? then None
    else if h[|h| - 1].kind.SuccessKind? then Some(h[|h| - 1].time)
    else LastSuccessAt(h[..|h| - 1])
  }

  /**
   * The failures held against a key: a failure adds one, a trip lifts them to the threshold, a reset
   * clears them, and so does a success that does not leave the circuit half-open.
   */
  function Failures(cfg: Config, h: seq<Happening>): (n: int) {
    if h == [] then 0
    else
      var before, last := h[..|h| - 1], h[|h| - 1];
      match last.kind
      case FailureKind => Failures(cfg, before) + 1
      case TripKind =>
        if Failures(cfg, before) < cfg.failureThreshold then cfg.failureThreshold else Failures(cfg, before)
      case ResetKind => 0
      case SuccessKind =>
        if PhaseAt(cfg, before, last.time).HalfOpen? && PhaseAt(cfg, h, last.time).HalfOpen?
        then Failures(cfg, before) else 0
  }

  /** The record of a history as it is read at time t. */
  function Told(cfg: Config, h: seq<Happening>, t: int): (d: Record) {
    var o, phase := LastOpening(cfg, h), PhaseAt(cfg, h, t);
    Record(phase, Failures(cfg, h), if phase.HalfOpen? then SuccessesFrom(h, o + 1) else 0,
           LastFailureAt(h), LastSuccessAt(h), if phase.Closed? then None else Some(h[o].time))
  }

  /** What a record holds besides its phase and opening. */
  predicate Exact(cfg: Config, d: Record, h: seq<Happening>) {
    && d.failures == Failures(cfg, h) && d.lastFailure == LastFailureAt(h) && d.lastSuccess == LastSuccessAt(h)
    && (d.phase.Closed? ==> d.openedAt == None)
    && (!d.phase.HalfOpen? ==> d.successes == 0)
  }

  lemma StepTimes(cfg: Config, d: Record, h: seq<Happening>, e: Happening)
    requires d.lastFailure == LastFailureAt(h) && d.lastSuccess == LastSuccessAt(h)
    ensures Next(cfg, d, e).lastFailure == LastFailureAt(h + [e])
    ensures Next(cfg, d, e).lastSuccess == LastSuccessAt(h + [e])
  {
    assert (h + [e])[..|h|] == h;
  }

  lemma StepPhases(cfg: Config, d: Record, h: seq<Happening>, e: Happening)
    requires cfg.failureThreshold >= 1 && cfg.halfOpenSuccessThreshold >= 1
    requires Faithful(cfg, d, h) && Chronological(h + [e])
    ensures Cooled(cfg, d, e.time).phase == PhaseAt(cfg, h, e.time)
    ensures Cooled(cfg, Next(cfg, d, e), e.time).phase == PhaseAt(cfg, h + [e], e.time)
    ensures Faithful(cfg, Next(cfg, d, e), h + [e])
  {
    ChronologicalSplit(h, e);
    FaithfulPhase(cfg, d, h, e.time);
    StepFaithful(cfg, d, h, e);
    FaithfulPhase(cfg, Next(cfg, d, e), h + [e], e.time);
  }

  lemma StepFailures(cfg: Config, d: Record, h: seq<Happening>, e: Happening)
    requires d.failures == Failures(cfg, h)
    requires Cooled(cfg, d, e.time).phase == PhaseAt(cfg, h, e.time)
    requires Cooled(cfg, Next(cfg, d, e), e.time).phase == PhaseAt(cfg, h + [e], e.time)
    ensures Next(cfg, d, e).failures == Failures(cfg, h + [e])
  {
    assert (h + [e])[..|h|] == h && (h + [e])[|h|] == e;
  }

  lemma StepCounters(cfg: Config, d: Record, e: Happening)
    requires d.phase.Closed? ==> d.openedAt == None
    requires !d.phase.HalfOpen? ==> d.successes == 0
    ensures Next(cfg, d, e).phase.Closed? ==> Next(cfg, d, e).openedAt == None
    ensures !Next(cfg, d, e).phase.HalfOpen? ==> Next(cfg, d, e).successes == 0
  {
  }

  lemma StepExact(cfg: Config, d: Record, h: seq<Happening>, e: Happening)
    requires cfg.failureThreshold >= 1 && cfg.halfOpenSuccessThreshold >= 1
    requires Faithful(cfg, d, h) && Chronological(h + [e]) && Exact(cfg, d, h)
    ensures Exact(cfg, Next(cfg, d, e), h + [e])
  {
    StepTimes(cfg, d, h, e);
    StepPhases(cfg, d, h, e);
    StepFailures(cfg, d, h, e);
    StepCounters(cfg, d, e);
  }

  lemma {:induction false} ReplayExact(cfg: Config, h: seq<Happening>)
    requires cfg.failureThreshold >= 1 && cfg.halfOpenSuccessThreshold >= 1 && Chronological(h)
    ensures Exact(cfg, Replay(cfg, h), h)
  {
    if h != [] {
      var n := |h| - 1;
      ReplayExact(cfg, h[..n]);
      ReplayFaithful(cfg, h[..n]);
      assert h == h[..n] + [h[n]];
      StepExact(cfg, Replay(cfg, h[..n]), h[..n], h[n]);
    }
  }

  lemma ReadExactly(cfg: Config, d: Record, h: seq<Happening>, t: int)
    requires Faithful(cfg, d, h) && Exact(cfg, d, h) && Chronological(h) && (h != [] ==> h[|h| - 1].time <= t)
    ensures Cooled(cfg, d, t) == Told(cfg, h, t)
  {
    FaithfulPhase(cfg, d, h, t);
  }

  /**
   * After any run, through cache, store and evictions, every field of the record that is read for a
   * key is the one its history tells: phase, counters, the times of the last failure, the last
   * success and the opening.
   */
  lemma RecordFollowsHistory(cfg: Config, clock: int, ops: seq<Op>, key: string, t: int)
    requires cfg.failureThreshold >= 1 && cfg.halfOpenSuccessThreshold >= 1
    requires Sorted(ops) && clock <= t && forall i | 0 <= i < |ops| :: clock <= ops[i].now <= t
    ensures Current(cfg, Reached(cfg, ops), key, t) == Told(cfg, History(ops, key), t)
  {
    var h := History(ops, key);
    CurrentIsReplay(cfg, clock, ops, key, t);
    HistoryChronological(ops, key, t);
    ReplayFaithful(cfg, h);
    ReplayExact(cfg, h);
    ReadExactly(cfg, Replay(cfg, h), h, t);
  }
}
