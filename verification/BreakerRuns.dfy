/** Whole runs of the circuit breaker: the cache never shows, and when exactly a key is blocked. */
module BreakerRuns {
  import opened Text
  import opened CircuitBreaker

  datatype Kind = TripKind | ResetKind | SuccessKind | FailureKind

  datatype Op =
    | Ask(key: string, now: int)
    | AskSync(key: string, now: int)
    | Change(key: string, now: int, kind: Kind)
    | Evict(now: int)

  function Changed(cfg: Config, d: Record, kind: Kind, now: int): Record {
    match kind
    case TripKind => Tripped(cfg, d, now)
    case ResetKind => FRESH
    case SuccessKind => Succeeded(cfg, d, now)
    case FailureKind => Failed(cfg, d, now)
  }

  function Apply(cfg: Config, s: Store, op: Op): Store {
    match op
    case Ask(key, now) => AskStep(cfg, s, key, now)
    case AskSync(key, now) => AskSyncStep(cfg, s, key, now)
    case Change(key, now, kind) => PutStep(s, key, Changed(cfg, Current(cfg, s, key, now), kind, now))
    case Evict(_) => EvictStep(s)
  }

  predicate Timely(ops: seq<Op>, clock: int)
    decreases |ops|
  {
    ops == [] || (clock <= ops[0].now && Timely(ops[1..], ops[0].now))
  }

  /** What the asynchronous reads of a run answer. */
  function Answers(cfg: Config, s: Store, ops: seq<Op>): seq<Record>
    decreases |ops|
  {
    if ops == [] then []
    else
      (if ops[0].Ask? then [Current(cfg, s, ops[0].key, ops[0].now)] else [])
      + Answers(cfg, Apply(cfg, s, ops[0]), ops[1..])
  }

  // ----- the breaker without a cache

  /** One record per key, changed by the recorded results and by nothing else. */
  type Truth = map<string, Record>

  function Get(a: Truth, key: string): Record { if key in a then a[key] else FRESH }

  function ApplyTruth(cfg: Config, a: Truth, op: Op): Truth {
    if op.Change? then a[op.key := Changed(cfg, Cooled(cfg, Get(a, op.key), op.now), op.kind, op.now)] else a
  }

  function TruthAnswers(cfg: Config, a: Truth, ops: seq<Op>): seq<Record>
    decreases |ops|
  {
    if ops == [] then []
    else
      (if ops[0].Ask? then [Cooled(cfg, Get(a, ops[0].key), ops[0].now)] else [])
      + TruthAnswers(cfg, ApplyTruth(cfg, a, ops[0]), ops[1..])
  }

  /** A copy that is either up to date or has already moved to HALF_OPEN, when that was due. */
  predicate Reflects(cfg: Config, copy: Record, truth: Record, clock: int) {
    copy == truth || copy == Cooled(cfg, truth, clock)
  }

  predicate KeyRelated(cfg: Config, s: Store, a: Truth, clock: int, key: string) {
    Reflects(cfg, Loaded(s, key), Get(a, key), clock) && Reflects(cfg, OnDisk(s, key), Get(a, key), clock)
  }

  ghost predicate Related(cfg: Config, s: Store, a: Truth, clock: int) {
    forall key :: KeyRelated(cfg, s, a, clock, key)
  }

  lemma ReflectingCopiesCoolAlike(cfg: Config, copy: Record, truth: Record, clock: int, t: int)
    requires Reflects(cfg, copy, truth, clock) && clock <= t
    ensures Cooled(cfg, copy, t) == Cooled(cfg, truth, t)
    ensures Reflects(cfg, copy, truth, t)
  {
  }

  lemma StepRelated(cfg: Config, s: Store, a: Truth, clock: int, op: Op)
    requires Related(cfg, s, a, clock) && clock <= op.now
    ensures Related(cfg, Apply(cfg, s, op), ApplyTruth(cfg, a, op), op.now)
    ensures op.Ask? ==> Current(cfg, s, op.key, op.now) == Cooled(cfg, Get(a, op.key), op.now)
  {
    forall key
      ensures KeyRelated(cfg, Apply(cfg, s, op), ApplyTruth(cfg, a, op), op.now, key)
    {
      assert KeyRelated(cfg, s, a, clock, key);
      ReflectingCopiesCoolAlike(cfg, Loaded(s, key), Get(a, key), clock, op.now);
      ReflectingCopiesCoolAlike(cfg, OnDisk(s, key), Get(a, key), clock, op.now);
    }
    if op.Ask? {
      assert KeyRelated(cfg, s, a, clock, op.key);
      ReflectingCopiesCoolAlike(cfg, Loaded(s, op.key), Get(a, op.key), clock, op.now);
    }
  }

  lemma {:induction false} AnswersAreTruth(cfg: Config, s: Store, a: Truth, clock: int, ops: seq<Op>)
    requires Related(cfg, s, a, clock) && Timely(ops, clock)
    ensures Answers(cfg, s, ops) == TruthAnswers(cfg, a, ops)
    decreases |ops|
  {
    if ops != [] {
      StepRelated(cfg, s, a, clock, ops[0]);
      AnswersAreTruth(cfg, Apply(cfg, s, ops[0]), ApplyTruth(cfg, a, ops[0]), ops[0].now, ops[1..]);
    }
  }

  const EMPTY := Store(map[], map[])

  /** The run with every eviction and every synchronous read left out. */
  function Essential(ops: seq<Op>): seq<Op> {
    if ops == [] then []
    else (if ops[0].Evict? || ops[0].AskSync? then [] else [ops[0]]) + Essential(ops[1..])
  }

  lemma {:induction false} EssentialTruth(cfg: Config, a: Truth, ops: seq<Op>)
    ensures TruthAnswers(cfg, a, Essential(ops)) == TruthAnswers(cfg, a, ops)
    decreases |ops|
  {
    if ops != [] {
      var rest := Essential(ops[1..]);
      EssentialTruth(cfg, ApplyTruth(cfg, a, ops[0]), ops[1..]);
      if ops[0].Evict? || ops[0].AskSync? {
        assert [] + rest == rest;
        assert [] + TruthAnswers(cfg, a, ops[1..]) == TruthAnswers(cfg, a, ops[1..]);
      } else {
        assert ([ops[0]] + rest)[1..] == rest;
      }
    }
  }

  lemma {:induction false} EssentialTimely(ops: seq<Op>, clock: int)
    requires Timely(ops, clock)
    ensures Timely(Essential(ops), clock)
    decreases |ops|
  {
    if ops != [] {
      var rest := Essential(ops[1..]);
      EssentialTimely(ops[1..], ops[0].now);
      if ops[0].Evict? || ops[0].AskSync? {
        assert [] + rest == rest;
        TimelyEarlier(rest, ops[0].now, clock);
      } else {
        assert ([ops[0]] + rest)[1..] == rest;
      }
    }
  }

  lemma TimelyEarlier(ops: seq<Op>, clock: int, earlier: int)
    requires Timely(ops, clock) && earlier <= clock
    ensures Timely(ops, earlier)
  {
  }

  /** Eviction transparency: dropping the cache, or reading it synchronously, at any points changes no answer. */
  lemma EvictionIsInvisible(cfg: Config, clock: int, ops: seq<Op>)
    requires Timely(ops, clock)
    ensures Answers(cfg, EMPTY, ops) == Answers(cfg, EMPTY, Essential(ops))
  {
    assert Related(cfg, EMPTY, map[], clock);
    AnswersAreTruth(cfg, EMPTY, map[], clock, ops);
    EssentialTimely(ops, clock);
    AnswersAreTruth(cfg, EMPTY, map[], clock, Essential(ops));
    EssentialTruth(cfg, map[], ops);
  }

  // ----- when a key is blocked, told from its history alone

  datatype Happening = Happening(kind: Kind, time: int)

  /** Index of the last happening that opened the circuit; -1 if none did. */
  function LastOpening(cfg: Config, h: seq<Happening>): (o: int)
    ensures -1 <= o < |h|
    decreases |h|, 0
  {
    if h == [] then -1
    else if Opens(cfg, h) then |h| - 1
    else LastOpening(cfg, h[..|h| - 1])
  }

  /** Whether the last happening of the history opens the circuit. */
  predicate Opens(cfg: Config, h: seq<Happening>)
    requires h != []
    decreases |h| - 1, 2
  {
    var before, last := h[..|h| - 1], h[|h| - 1];
    || last.kind.TripKind?
    || (last.kind.FailureKind? &&
        match PhaseAt(cfg, before, last.time)
        case Closed => FailureStreak(before) + 1 >= cfg.failureThreshold
        case HalfOpen => true
        case Open => false)
  }

  function PhaseAt(cfg: Config, h: seq<Happening>, t: int): Phase
    decreases |h|, 1
  {
    var o := LastOpening(cfg, h);
    if o == -1 || ClosedAgain(cfg, h, o) then Closed
    else if t < h[o].time + cfg.cooldownMs then Open
    else HalfOpen
  }

  /** Closed since its opening: by a reset, by a success before the cooldown was over, or by enough successes. */
  predicate ClosedAgain(cfg: Config, h: seq<Happening>, o: int)
    requires 0 <= o < |h|
  {
    || (exists i | o < i < |h| :: h[i].kind.ResetKind?)
    || (exists i | o < i < |h| :: h[i].kind.SuccessKind? && h[i].time < h[o].time + cfg.cooldownMs)
    || SuccessesFrom(h, o + 1) >= cfg.halfOpenSuccessThreshold
  }

  function SuccessesFrom(h: seq<Happening>, from: nat): (n: nat) {
    if |h| <= from then 0
    else SuccessesFrom(h[..|h| - 1], from) + (if h[|h| - 1].kind.SuccessKind? then 1 else 0)
  }

  /** Failures since the last success or reset. */
  function FailureStreak(h: seq<Happening>): (n: nat) {
    if h == [] then 0
    else match h[|h| - 1].kind
      case SuccessKind => 0
      case ResetKind => 0
      case FailureKind => FailureStreak(h[..|h| - 1]) + 1
      case TripKind => FailureStreak(h[..|h| - 1])
  }

  predicate Chronological(h: seq<Happening>) {
    forall i, j | 0 <= i < j < |h| :: h[i].time <= h[j].time
  }

  /** The record after a history. */
  function Replay(cfg: Config, h: seq<Happening>): Record {
    if h == [] then FRESH
    else
      var last := h[|h| - 1];
      Changed(cfg, Cooled(cfg, Replay(cfg, h[..|h| - 1]), last.time), last.kind, last.time)
  }

  /** What the record says about the history it was made from. */
  predicate Faithful(cfg: Config, d: Record, h: seq<Happening>) {
    var o := LastOpening(cfg, h);
    if o == -1 || ClosedAgain(cfg, h, o)
    then d.phase.Closed? && d.failures == FailureStreak(h) && d.failures < cfg.failureThreshold
    else
      && d.openedAt == Some(h[o].time)
      && (d.phase.Open? ==> SuccessesFrom(h, o + 1) == 0)
      && (d.phase.HalfOpen? ==>
            d.successes == SuccessesFrom(h, o + 1) && h[|h| - 1].time >= h[o].time + cfg.cooldownMs)
      && !d.phase.Closed?
  }

  lemma FaithfulPhase(cfg: Config, d: Record, h: seq<Happening>, t: int)
    requires Faithful(cfg, d, h) && Chronological(h)
    requires h != [] ==> h[|h| - 1].time <= t
    ensures Cooled(cfg, d, t).phase == PhaseAt(cfg, h, t)
  {
  }

  lemma SuccessesFromEnd(h: seq<Happening>)
    ensures SuccessesFrom(h, |h|) == 0
  {
  }

  lemma SameOpening(cfg: Config, h: seq<Happening>, e: Happening)
    requires !Opens(cfg, h + [e])
    ensures LastOpening(cfg, h + [e]) == LastOpening(cfg, h)
    ensures var o := LastOpening(cfg, h);
            o >= 0 ==>
              && SuccessesFrom(h + [e], o + 1) == SuccessesFrom(h, o + 1) + (if e.kind.SuccessKind? then 1 else 0)
              && (ClosedAgain(cfg, h + [e], o) <==>
                    || ClosedAgain(cfg, h, o) || e.kind.ResetKind?
                    || (e.kind.SuccessKind? && e.time < h[o].time + cfg.cooldownMs)
                    || (e.kind.SuccessKind? && SuccessesFrom(h, o + 1) + 1 >= cfg.halfOpenSuccessThreshold))
  {
    var g := h + [e];
    assert g[..|h|] == h;
    var o := LastOpening(cfg, h);
    if o >= 0 {
      assert forall i | 0 <= i < |h| :: g[i] == h[i];
      assert g[|h|] == e;
      if exists i | o < i < |h| :: h[i].kind.ResetKind? {
        var i :| o < i < |h| && h[i].kind.ResetKind?;
        assert g[i].kind.ResetKind?;
      }
      if exists i | o < i < |h| :: h[i].kind.SuccessKind? && h[i].time < h[o].time + cfg.cooldownMs {
        var i :| o < i < |h| && h[i].kind.SuccessKind? && h[i].time < h[o].time + cfg.cooldownMs;
        assert g[i].kind.SuccessKind?;
      }
    }
  }

  lemma FailureStreakSnoc(h: seq<Happening>, e: Happening)
    ensures FailureStreak(h + [e]) ==
            match e.kind
            case SuccessKind => 0
            case ResetKind => 0
            case FailureKind => FailureStreak(h) + 1
            case TripKind => FailureStreak(h)
  {
    assert (h + [e])[..|h|] == h;
  }

  function Next(cfg: Config, d: Record, e: Happening): Record {
    Changed(cfg, Cooled(cfg, d, e.time), e.kind, e.time)
  }

  lemma ChronologicalSplit(h: seq<Happening>, e: Happening)
    requires Chronological(h + [e])
    ensures Chronological(h) && (h != [] ==> h[|h| - 1].time <= e.time)
  {
    var g := h + [e];
    assert g[|h|] == e && forall i | 0 <= i < |h| :: g[i] == h[i];
    assert h != [] ==> g[|h| - 1].time <= g[|h|].time;
  }

  /** Told without the sequence: an opening happening makes the record open at its time. */
  lemma OpenedRecord(cfg: Config, d: Record, e: Happening)
    requires e.kind.TripKind? || (e.kind.FailureKind? &&
               match Cooled(cfg, d, e.time).phase
               case Closed => d.failures + 1 >= cfg.failureThreshold
               case HalfOpen => true
               case Open => false)
    ensures Next(cfg, d, e).phase.Open? && Next(cfg, d, e).openedAt == Some(e.time)
  {
  }

  lemma OpeningIsOpen(cfg: Config, d: Record, h: seq<Happening>, e: Happening)
    requires Faithful(cfg, d, h) && Opens(cfg, h + [e])
    requires Cooled(cfg, d, e.time).phase == PhaseAt(cfg, h, e.time)
    ensures Next(cfg, d, e).phase.Open? && Next(cfg, d, e).openedAt == Some(e.time)
  {
    assert (h + [e])[..|h|] == h && (h + [e])[|h|] == e;
    if PhaseAt(cfg, h, e.time).Closed? {
      assert d.phase.Closed? && d.failures == FailureStreak(h);
    }
    OpenedRecord(cfg, d, e);
  }

  lemma StaysClosed(cfg: Config, d: Record, h: seq<Happening>, e: Happening)
    requires Faithful(cfg, d, h) && !Opens(cfg, h + [e]) && cfg.failureThreshold >= 1
    requires LastOpening(cfg, h) == -1 || ClosedAgain(cfg, h, LastOpening(cfg, h))
    ensures Faithful(cfg, Next(cfg, d, e), h + [e])
  {
    SameOpening(cfg, h, e);
    FailureStreakSnoc(h, e);
    assert (h + [e])[..|h|] == h && (h + [e])[|h|] == e;
  }

  lemma StaysOpened(cfg: Config, d: Record, h: seq<Happening>, e: Happening)
    requires Faithful(cfg, d, h) && !Opens(cfg, h + [e]) && (h != [] ==> h[|h| - 1].time <= e.time)
    requires Cooled(cfg, d, e.time).phase == PhaseAt(cfg, h, e.time)
    requires cfg.failureThreshold >= 1 && cfg.halfOpenSuccessThreshold >= 1
    requires LastOpening(cfg, h) >= 0 && !ClosedAgain(cfg, h, LastOpening(cfg, h))
    ensures Faithful(cfg, Next(cfg, d, e), h + [e])
  {
    var g := h + [e];
    SameOpening(cfg, h, e);
    FailureStreakSnoc(h, e);
    var o := LastOpening(cfg, h);
    assert g[..|h|] == h && g[|h|] == e && g[o] == h[o];
  }

  lemma StepFaithful(cfg: Config, d: Record, h: seq<Happening>, e: Happening)
    requires cfg.failureThreshold >= 1 && cfg.halfOpenSuccessThreshold >= 1
    requires Faithful(cfg, d, h) && Chronological(h + [e])
    ensures Faithful(cfg, Next(cfg, d, e), h + [e])
  {
    ChronologicalSplit(h, e);
    FaithfulPhase(cfg, d, h, e.time);
    if Opens(cfg, h + [e]) {
      OpeningIsOpen(cfg, d, h, e);
      SuccessesFromEnd(h + [e]);
    } else if LastOpening(cfg, h) == -1 || ClosedAgain(cfg, h, LastOpening(cfg, h)) {
      StaysClosed(cfg, d, h, e);
    } else {
      StaysOpened(cfg, d, h, e);
    }
  }

  lemma {:induction false} ReplayFaithful(cfg: Config, h: seq<Happening>)
    requires cfg.failureThreshold >= 1 && cfg.halfOpenSuccessThreshold >= 1 && Chronological(h)
    ensures Faithful(cfg, Replay(cfg, h), h)
  {
    if h != [] {
      var n := |h| - 1;
      ReplayFaithful(cfg, h[..n]);
      assert h == h[..n] + [h[n]];
      StepFaithful(cfg, Replay(cfg, h[..n]), h[..n], h[n]);
    }
  }

  /** The opening that blocks a key: nothing opened, succeeded or was reset after it, and its cooldown runs. */
  predicate BlockedBy(cfg: Config, h: seq<Happening>, o: int, t: int) {
    && o == LastOpening(cfg, h) && o >= 0
    && (forall i | o < i < |h| :: !h[i].kind.SuccessKind? && !h[i].kind.ResetKind?)
    && t < h[o].time + cfg.cooldownMs
  }

  /** A key is refused at time t exactly when its last opening has no success or reset after it and still cools down. */
  lemma RefusedExactlyWhileCooling(cfg: Config, h: seq<Happening>, t: int)
    requires cfg.failureThreshold >= 1 && cfg.halfOpenSuccessThreshold >= 1 && Chronological(h)
    requires h != [] ==> h[|h| - 1].time <= t
    ensures !CanExecute(Cooled(cfg, Replay(cfg, h), t)) <==> BlockedBy(cfg, h, LastOpening(cfg, h), t)
    ensures Cooled(cfg, Replay(cfg, h), t).phase == PhaseAt(cfg, h, t)
  {
    ReplayFaithful(cfg, h);
    FaithfulPhase(cfg, Replay(cfg, h), h, t);
    var o := LastOpening(cfg, h);
    if o >= 0 {
      if forall i | o < i < |h| :: !h[i].kind.SuccessKind? && !h[i].kind.ResetKind? {
        NoSuccesses(h, o + 1);
      }
    }
  }

  lemma {:induction false} NoSuccesses(h: seq<Happening>, from: nat)
    requires forall i | from <= i < |h| :: !h[i].kind.SuccessKind?
    ensures SuccessesFrom(h, from) == 0
  {
    if |h| > from {
      NoSuccesses(h[..|h| - 1], from);
    }
  }

  /** A closed circuit trips on exactly the threshold-th failure in a row, and an open one never opens anew. */
  lemma TripsOnThresholdFailure(cfg: Config, h: seq<Happening>, t: int)
    requires cfg.failureThreshold >= 1 && cfg.halfOpenSuccessThreshold >= 1
    requires Chronological(h + [Happening(FailureKind, t)])
    ensures var g := h + [Happening(FailureKind, t)];
            match PhaseAt(cfg, h, t)
            case Closed => Opens(cfg, g) <==> FailureStreak(g) == cfg.failureThreshold
            case HalfOpen => Opens(cfg, g)
            case Open => LastOpening(cfg, g) == LastOpening(cfg, h)
                         && forall u | t <= u :: PhaseAt(cfg, g, u) == PhaseAt(cfg, h, u)
  {
    var e := Happening(FailureKind, t);
    var g := h + [e];
    assert g[..|h|] == h && g[|h|] == e;
    assert Chronological(h) by {
      assert forall i | 0 <= i < |h| :: g[i] == h[i];
    }
    ReplayFaithful(cfg, h);
    FailureStreakSnoc(h, e);
    if PhaseAt(cfg, h, t).Open? {
      SameOpening(cfg, h, e);
    }
  }

  // ----- from runs to histories

  function History(ops: seq<Op>, key: string): seq<Happening> {
    if ops == [] then []
    else
      var last := ops[|ops| - 1];
      History(ops[..|ops| - 1], key)
      + (if last.Change? && last.key == key then [Happening(last.kind, last.now)] else [])
  }

  function TruthAfter(cfg: Config, ops: seq<Op>): Truth {
    if ops == [] then map[] else ApplyTruth(cfg, TruthAfter(cfg, ops[..|ops| - 1]), ops[|ops| - 1])
  }

  predicate Sorted(ops: seq<Op>) {
    forall i, j | 0 <= i < j < |ops| :: ops[i].now <= ops[j].now
  }

  lemma {:induction false} TruthIsReplay(cfg: Config, ops: seq<Op>, key: string)
    ensures Get(TruthAfter(cfg, ops), key) == Replay(cfg, History(ops, key))
  {
    if ops != [] {
      var n := |ops| - 1;
      TruthIsReplay(cfg, ops[..n], key);
      var before := History(ops[..n], key);
      if ops[n].Change? && ops[n].key == key {
        assert (before + [Happening(ops[n].kind, ops[n].now)])[..|before|] == before;
      } else {
        assert before + [] == before;
      }
    }
  }

  lemma {:induction false} HistoryChronological(ops: seq<Op>, key: string, t: int)
    requires Sorted(ops) && forall i | 0 <= i < |ops| :: ops[i].now <= t
    ensures Chronological(History(ops, key))
    ensures forall i | 0 <= i < |History(ops, key)| :: History(ops, key)[i].time <= t
  {
    if ops != [] {
      var n := |ops| - 1;
      HistoryChronological(ops[..n], key, ops[n].now);
    }
  }

  lemma {:induction false} ReachedRelated(cfg: Config, ops: seq<Op>, clock: int)
    requires Sorted(ops) && forall i | 0 <= i < |ops| :: clock <= ops[i].now
    ensures var end := if ops == [] then clock else ops[|ops| - 1].now;
            Related(cfg, Reached(cfg, ops), TruthAfter(cfg, ops), end)
  {
    if ops != [] {
      var n := |ops| - 1;
      ReachedRelated(cfg, ops[..n], clock);
      var end := if n == 0 then clock else ops[n - 1].now;
      StepRelated(cfg, Reached(cfg, ops[..n]), TruthAfter(cfg, ops[..n]), end, ops[n]);
    }
  }

  /** The state after a run, built from its end as the histories are. */
  function Reached(cfg: Config, ops: seq<Op>): Store {
    if ops == [] then EMPTY else Apply(cfg, Reached(cfg, ops[..|ops| - 1]), ops[|ops| - 1])
  }

  /**
   * In every reachable state the cached record and the stored one look the same to whoever reads
   * from then on, even after synchronous reads moved only the cache to HALF_OPEN.
   */
  lemma {:induction false} CacheAndStoreAgree(cfg: Config, clock: int, ops: seq<Op>, key: string, t: int)
    requires Sorted(ops) && clock <= t && forall i | 0 <= i < |ops| :: clock <= ops[i].now <= t
    ensures var end := Reached(cfg, ops);
            Cooled(cfg, Loaded(end, key), t) == Cooled(cfg, OnDisk(end, key), t)
  {
    var s, a := Reached(cfg, ops), TruthAfter(cfg, ops);
    var end := if ops == [] then clock else ops[|ops| - 1].now;
    ReachedRelated(cfg, ops, clock);
    assert KeyRelated(cfg, s, a, end, key);
    ReflectingCopiesCoolAlike(cfg, Loaded(s, key), Get(a, key), end, t);
    ReflectingCopiesCoolAlike(cfg, OnDisk(s, key), Get(a, key), end, t);
  }

  /** What is read for a key after a run is the replay of its history, cooled down. */
  lemma CurrentIsReplay(cfg: Config, clock: int, ops: seq<Op>, key: string, t: int)
    requires Sorted(ops) && clock <= t && forall i | 0 <= i < |ops| :: clock <= ops[i].now <= t
    ensures Current(cfg, Reached(cfg, ops), key, t) == Cooled(cfg, Replay(cfg, History(ops, key)), t)
  {
    var end := if ops == [] then clock else ops[|ops| - 1].now;
    ReachedRelated(cfg, ops, clock);
    assert KeyRelated(cfg, Reached(cfg, ops), TruthAfter(cfg, ops), end, key);
    ReflectingCopiesCoolAlike(cfg, Loaded(Reached(cfg, ops), key), Get(TruthAfter(cfg, ops), key), end, t);
    TruthIsReplay(cfg, ops, key);
  }

  /**
   * Run characterisation, through cache, store and evictions: after any run, `canExecute` for a key
   * at time t is false exactly when the key's last opening has no later success or reset and
   * t lies before its time plus the cooldown.
   */
  lemma CanExecuteFollowsHistory(cfg: Config, clock: int, ops: seq<Op>, key: string, t: int)
    requires cfg.failureThreshold >= 1 && cfg.halfOpenSuccessThreshold >= 1
    requires Sorted(ops) && clock <= t && forall i | 0 <= i < |ops| :: clock <= ops[i].now <= t
    ensures var h := History(ops, key);
            && (!CanExecute(Current(cfg, Reached(cfg, ops), key, t)) <==> BlockedBy(cfg, h, LastOpening(cfg, h), t))
            && Current(cfg, Reached(cfg, ops), key, t).phase == PhaseAt(cfg, h, t)
  {
    CurrentIsReplay(cfg, clock, ops, key, t);
    HistoryChronological(ops, key, t);
    RefusedExactlyWhileCooling(cfg, History(ops, key), t);
  }
}
