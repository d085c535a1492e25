/** Whole runs of the pool coordinator against the log of all reports and all brakes. */
module CoordinatorRuns {
  import opened Windows
  import opened Ledger
  import opened PoolCoordinator

  datatype Op =
    | Report(tenant: string, volume: int, now: int)
    | Status(tenant: string, now: int)
    | Alarm(now: int)
    | Restart(now: int)

  ghost function Apply(s: State, op: Op): State {
    match op
    case Report(tenant, volume, now) => ReportStep(s, tenant, volume, now)
    case Status(_, _) => s
    case Alarm(now) => AlarmStep(s, now)
    case Restart(_) => RestartStep(s)
  }

  /** The answer to a report (was a brake applied?) or to a status query (is the tenant braked?). */
  ghost function Answer(s: State, op: Op): seq<bool> {
    match op
    case Report(tenant, volume, now) => [Brakes(s, tenant, volume, now)]
    case Status(tenant, now) => [Braked(s, tenant, now)]
    case Alarm(_) => []
    case Restart(_) => []
  }

  ghost function Answers(s: State, ops: seq<Op>): seq<bool>
    decreases |ops|
  {
    if ops == [] then [] else Answer(s, ops[0]) + Answers(Apply(s, ops[0]), ops[1..])
  }

  /** Non-negative volumes, and a clock that starts at 0 or later and never goes back. */
  predicate Legal(ops: seq<Op>, clock: int)
    decreases |ops|
  {
    ops == [] ||
    (0 <= clock <= ops[0].now && (ops[0].Report? ==> ops[0].volume >= 0) && Legal(ops[1..], ops[0].now))
  }

  // ----- the coordinator without a memory of its own

  /** Every report since the last restart and every brake, ever. */
  datatype History = History(reports: seq<Item>, brakes: seq<Item>)

  /** The tenant's reported volume of the last five minutes is more than 35% of everyone's. */
  predicate Surges(reports: seq<Item>, tenant: string, now: int) {
    100 * SumAfter(Of(tenant), reports, now - 300000) > 35 * SumAfter(TOTAL, reports, now - 300000)
  }

  /** The tenant was braked within the last 60 seconds. */
  predicate RecentlyBraked(brakes: seq<Item>, tenant: string, now: int) {
    SumAfter(Of(tenant), brakes, now - 60000) > 0
  }

  function Extended(h: History, op: Op): History {
    if op.Report? then
      var reports := h.reports + [Item(op.now, op.tenant, op.volume)];
      History(reports, if Surges(reports, op.tenant, op.now) then h.brakes + [Item(op.now, op.tenant, 1)] else h.brakes)
    else if op.Restart? then History([], h.brakes)
    else h
  }

  function HistoryAnswer(h: History, op: Op): seq<bool> {
    match op
    case Report(tenant, volume, now) => [Surges(h.reports + [Item(now, tenant, volume)], tenant, now)]
    case Status(tenant, now) => [RecentlyBraked(h.brakes, tenant, now)]
    case Alarm(_) => []
    case Restart(_) => []
  }

  function HistoryAnswers(h: History, ops: seq<Op>): seq<bool>
    decreases |ops|
  {
    if ops == [] then [] else HistoryAnswer(h, ops[0]) + HistoryAnswers(Extended(h, ops[0]), ops[1..])
  }

  // ----- agreement

  predicate SameVolume(vols: seq<Volume>, reports: seq<Item>, tenant: string, lo: int) {
    SumAfter(VOLUME, vols, lo) == SumAfter(Of(tenant), reports, lo)
  }

  ghost predicate VolumesAgree(s: State, reports: seq<Item>, clock: int, tenant: string) {
    forall lo | lo >= clock - FIVE_MINUTES :: SameVolume(Vols(s, tenant), reports, tenant, lo)
  }

  /** The brake of a tenant expires 60 seconds after its last brake; a forgotten one has expired. */
  ghost predicate BrakeAgrees(s: State, brakes: seq<Item>, clock: int, tenant: string) {
    if tenant in s.brakes
    then s.brakes[tenant] > 0 && LastBrake(brakes, tenant, s.brakes[tenant] - BRAKE_MS)
    else SumAfter(Of(tenant), brakes, clock - BRAKE_MS) == 0
  }

  /** `t` is the time of the tenant's last brake. */
  ghost predicate LastBrake(brakes: seq<Item>, tenant: string, t: int) {
    && SumAfter(Of(tenant), brakes, t) == 0
    && SumAfter(Of(tenant), brakes, t - 1) > 0
  }

  ghost predicate Agrees(s: State, h: History, clock: int) {
    && 0 <= clock && s.disk == s.brakes
    && NonNegative(TOTAL, h.reports) && NonNegative(TOTAL, h.brakes)
    && NotLater(TOTAL, h.reports, clock) && NotLater(TOTAL, h.brakes, clock)
    && forall t :: VolumesAgree(s, h.reports, clock, t) && BrakeAgrees(s, h.brakes, clock, t)
  }

  // ----- volumes

  function Added(op: Op, t: string): seq<Volume>
    requires op.Report?
  {
    if t == op.tenant then [Volume(op.volume, op.now)] else []
  }

  function AfterReport(s: State, op: Op): State
    requires op.Report?
  {
    s.(volumes := Reported(s, op.tenant, op.volume, op.now))
  }

  /** What a report leaves of each tenant's volumes. */
  lemma ReportedVols(s: State, op: Op, t: string)
    requires op.Report?
    ensures Vols(AfterReport(s, op), t) == Keep(VOLUME, Vols(s, t) + Added(op, t), op.now - FIVE_MINUTES)
  {
    assert Vols(s, t) + [] == Vols(s, t);
  }

  lemma AddedSums(op: Op, t: string, vols: seq<Volume>, reports: seq<Item>, lo: int)
    requires op.Report? && SameVolume(vols, reports, t, lo)
    ensures SameVolume(vols + Added(op, t), reports + [Item(op.now, op.tenant, op.volume)], t, lo)
  {
    SumAfterSnoc(Of(t), reports, Item(op.now, op.tenant, op.volume), lo);
    if t == op.tenant {
      SumAfterSnoc(VOLUME, vols, Volume(op.volume, op.now), lo);
    } else {
      assert vols + [] == vols;
    }
  }

  lemma ReportedAgree(s: State, reports: seq<Item>, clock: int, op: Op, t: string)
    requires op.Report? && clock <= op.now && VolumesAgree(s, reports, clock, t)
    ensures VolumesAgree(AfterReport(s, op), reports + [Item(op.now, op.tenant, op.volume)], op.now, t)
  {
    forall lo | lo >= op.now - FIVE_MINUTES
      ensures SameVolume(Vols(AfterReport(s, op), t), reports + [Item(op.now, op.tenant, op.volume)], t, lo)
    {
      assert SameVolume(Vols(s, t), reports, t, lo);
      AddedSums(op, t, Vols(s, t), reports, lo);
      KeepSums(VOLUME, VOLUME, Vols(s, t) + Added(op, t), op.now - FIVE_MINUTES, lo);
      ReportedVols(s, op, t);
    }
  }

  lemma AlarmVolumesAgree(s: State, reports: seq<Item>, clock: int, now: int, t: string)
    requires VolumesAgree(s, reports, clock, t) && clock <= now
    ensures VolumesAgree(AlarmStep(s, now), reports, now, t)
  {
    forall lo | lo >= now - FIVE_MINUTES
      ensures SameVolume(Vols(AlarmStep(s, now), t), reports, t, lo)
    {
      assert SameVolume(Vols(s, t), reports, t, lo);
      KeepSums(VOLUME, VOLUME, Vols(s, t), now - FIVE_MINUTES, lo);
    }
  }

  // ----- brakes

  /** A brake is recent exactly while the last one is. */
  lemma LastBrakeIsRecent(brakes: seq<Item>, tenant: string, t: int, now: int)
    requires NonNegative(TOTAL, brakes) && LastBrake(brakes, tenant, t)
    ensures RecentlyBraked(brakes, tenant, now) <==> now < t + BRAKE_MS
  {
    ShareNonNegative(brakes, tenant);
    var lo := now - BRAKE_MS;
    if lo < t {
      SumAfterShrinks(Of(tenant), brakes, lo, t - 1);
    } else {
      SumAfterShrinks(Of(tenant), brakes, t, lo);
    }
  }

  lemma StatusFollowsHistory(s: State, brakes: seq<Item>, clock: int, tenant: string, now: int)
    requires BrakeAgrees(s, brakes, clock, tenant) && NonNegative(TOTAL, brakes) && clock <= now
    ensures Braked(s, tenant, now) <==> RecentlyBraked(brakes, tenant, now)
  {
    ShareNonNegative(brakes, tenant);
    if tenant in s.brakes {
      LastBrakeIsRecent(brakes, tenant, s.brakes[tenant] - BRAKE_MS, now);
    } else {
      SumAfterShrinks(Of(tenant), brakes, clock - BRAKE_MS, now - BRAKE_MS);
    }
  }

  lemma BrakeAgreesLater(s: State, brakes: seq<Item>, clock: int, now: int, t: string)
    requires BrakeAgrees(s, brakes, clock, t) && NonNegative(TOTAL, brakes) && clock <= now
    ensures BrakeAgrees(s, brakes, now, t)
  {
    ShareNonNegative(brakes, t);
    SumAfterShrinks(Of(t), brakes, clock - BRAKE_MS, now - BRAKE_MS);
    SumAfterNonNegative(Of(t), brakes, now - BRAKE_MS);
  }

  lemma AlarmBrakeAgrees(s: State, brakes: seq<Item>, clock: int, now: int, t: string)
    requires BrakeAgrees(s, brakes, clock, t) && NonNegative(TOTAL, brakes) && clock <= now
    ensures BrakeAgrees(AlarmStep(s, now), brakes, now, t)
  {
    BrakeAgreesLater(s, brakes, clock, now, t);
    if t in s.brakes && now > s.brakes[t] {
      LastBrakeIsRecent(brakes, t, s.brakes[t] - BRAKE_MS, now);
      ShareNonNegative(brakes, t);
      SumAfterNonNegative(Of(t), brakes, now - BRAKE_MS);
    }
  }

  lemma NewBrakeAgrees(s: State, brakes: seq<Item>, clock: int, tenant: string, now: int, t: string)
    requires BrakeAgrees(s, brakes, clock, t) && NonNegative(TOTAL, brakes) && NotLater(TOTAL, brakes, now)
    requires 0 <= clock <= now
    ensures BrakeAgrees(s.(brakes := s.brakes[tenant := now + BRAKE_MS]), brakes + [Item(now, tenant, 1)], now, t)
  {
    var item := Item(now, tenant, 1);
    ShareNonNegative(brakes, t);
    if t == tenant {
      SumAfterSnoc(Of(t), brakes, item, now);
      SumAfterSnoc(Of(t), brakes, item, now - 1);
      assert NotLater(Of(t), brakes, now);
      SumAfterNone(Of(t), brakes, now);
      SumAfterNonNegative(Of(t), brakes, now - 1);
    } else {
      BrakeAgreesLater(s, brakes, clock, now, t);
      SumAfterSnoc(Of(t), brakes, item, now - BRAKE_MS);
      if t in s.brakes {
        SumAfterSnoc(Of(t), brakes, item, s.brakes[t] - BRAKE_MS);
        SumAfterSnoc(Of(t), brakes, item, s.brakes[t] - BRAKE_MS - 1);
      }
    }
  }

  // ----- the decision

  /** If every tenant's total is its share of the log, the totals sum up to the whole log. */
  lemma TotalsAddUp(m: map<string, seq<Volume>>, reports: seq<Item>, lo: int)
    requires NonNegative(TOTAL, reports) && forall t :: TotalOf(m)(t) == Share(reports, lo)(t)
    ensures SumOver(m.Keys, TotalOf(m)) == SumAfter(TOTAL, reports, lo)
  {
    forall i | 0 <= i < |reports|
      ensures reports[i].who !in m.Keys ==> SumAfter(Of(reports[i].who), reports, lo) == 0
    {
      assert TotalOf(m)(reports[i].who) == Share(reports, lo)(reports[i].who);
    }
    SumOverSame(m.Keys, TotalOf(m), Share(reports, lo));
    SharesAddUp(m.Keys, reports, lo);
  }

  /** The brake decision is the one the history calls for. */
  lemma BrakesAreSurges(s: State, h: History, clock: int, op: Op)
    requires Agrees(s, h, clock) && clock <= op.now && op.Report? && op.volume >= 0
    ensures Brakes(s, op.tenant, op.volume, op.now)
            <==> Surges(h.reports + [Item(op.now, op.tenant, op.volume)], op.tenant, op.now)
  {
    var lo := op.now - FIVE_MINUTES;
    var reports := h.reports + [Item(op.now, op.tenant, op.volume)];
    var m := Reported(s, op.tenant, op.volume, op.now);
    forall t
      ensures TotalOf(m)(t) == Share(reports, lo)(t)
    {
      assert VolumesAgree(s, h.reports, clock, t);
      ReportedAgree(s, h.reports, clock, op, t);
      assert SameVolume(Vols(AfterReport(s, op), t), h.reports + [Item(op.now, op.tenant, op.volume)], t,
                        op.now - FIVE_MINUTES);
      ReportedVols(s, op, t);
      KeptSums(VOLUME, Vols(s, t) + Added(op, t), op.now - FIVE_MINUTES);
      assert SumAll(VOLUME, []) == 0;
    }
    TotalsAddUp(m, reports, lo);
    ShareAtMostTotal(reports, op.tenant, lo);
    assert TotalOf(m)(op.tenant) == Share(reports, lo)(op.tenant);
  }

  lemma ReportAgrees(s: State, h: History, clock: int, op: Op)
    requires Agrees(s, h, clock) && clock <= op.now && op.Report? && op.volume >= 0
    ensures Agrees(Apply(s, op), Extended(h, op), op.now)
  {
    var s', h' := Apply(s, op), Extended(h, op);
    forall t
      ensures VolumesAgree(s', h'.reports, op.now, t) && BrakeAgrees(s', h'.brakes, op.now, t)
    {
      ReportKeyAgrees(s, h, clock, op, t);
    }
    ExtendedShape(h, clock, op);
  }

  lemma ExtendedShape(h: History, clock: int, op: Op)
    requires op.Report? && op.volume >= 0 && clock <= op.now
    requires NonNegative(TOTAL, h.reports) && NonNegative(TOTAL, h.brakes)
    requires NotLater(TOTAL, h.reports, clock) && NotLater(TOTAL, h.brakes, clock)
    ensures var h' := Extended(h, op);
            && NonNegative(TOTAL, h'.reports) && NonNegative(TOTAL, h'.brakes)
            && NotLater(TOTAL, h'.reports, op.now) && NotLater(TOTAL, h'.brakes, op.now)
  {
  }

  lemma ReportKeyAgrees(s: State, h: History, clock: int, op: Op, t: string)
    requires Agrees(s, h, clock) && clock <= op.now && op.Report? && op.volume >= 0
    ensures VolumesAgree(Apply(s, op), Extended(h, op).reports, op.now, t)
    ensures BrakeAgrees(Apply(s, op), Extended(h, op).brakes, op.now, t)
  {
    BrakesAreSurges(s, h, clock, op);
    assert VolumesAgree(s, h.reports, clock, t) && BrakeAgrees(s, h.brakes, clock, t);
    ReportedAgree(s, h.reports, clock, op, t);
    assert Vols(Apply(s, op), t) == Vols(AfterReport(s, op), t);
    var surges := Brakes(s, op.tenant, op.volume, op.now);
    BrakesAfter(s, Apply(s, op), h.brakes, Extended(h, op).brakes, clock, op.tenant, op.now, t, surges);
  }

  lemma BrakesAfter(s: State, s': State, brakes: seq<Item>, brakes': seq<Item>, clock: int, tenant: string, now: int,
                    t: string, surges: bool)
    requires 0 <= clock <= now && BrakeAgrees(s, brakes, clock, t)
    requires NonNegative(TOTAL, brakes) && NotLater(TOTAL, brakes, now)
    requires s'.brakes == if surges then s.brakes[tenant := now + BRAKE_MS] else s.brakes
    requires brakes' == if surges then brakes + [Item(now, tenant, 1)] else brakes
    ensures BrakeAgrees(s', brakes', now, t)
  {
    if surges {
      NewBrakeAgrees(s, brakes, clock, tenant, now, t);
    } else {
      BrakeAgreesLater(s, brakes, clock, now, t);
    }
  }

  lemma StepAgrees(s: State, h: History, clock: int, op: Op)
    requires Agrees(s, h, clock) && clock <= op.now && (op.Report? ==> op.volume >= 0)
    ensures Agrees(Apply(s, op), Extended(h, op), op.now)
  {
    if op.Report? {
      ReportAgrees(s, h, clock, op);
    } else if op.Restart? {
      forall t
        ensures VolumesAgree(RestartStep(s), [], op.now, t) && BrakeAgrees(RestartStep(s), h.brakes, op.now, t)
      {
        assert forall lo | lo >= op.now - FIVE_MINUTES :: SameVolume([], [], t, lo);
        assert BrakeAgrees(s, h.brakes, clock, t);
        BrakeAgreesLater(s, h.brakes, clock, op.now, t);
      }
    } else {
      forall t
        ensures VolumesAgree(Apply(s, op), h.reports, op.now, t) && BrakeAgrees(Apply(s, op), h.brakes, op.now, t)
      {
        assert VolumesAgree(s, h.reports, clock, t) && BrakeAgrees(s, h.brakes, clock, t);
        AlarmVolumesAgree(s, h.reports, clock, op.now, t);
        AlarmBrakeAgrees(s, h.brakes, clock, op.now, t);
        BrakeAgreesLater(s, h.brakes, clock, op.now, t);
      }
    }
  }

  lemma {:induction false} AnswersFollowHistory(s: State, h: History, clock: int, ops: seq<Op>)
    requires Agrees(s, h, clock) && Legal(ops, clock)
    ensures Answers(s, ops) == HistoryAnswers(h, ops)
    decreases |ops|
  {
    if ops != [] {
      match ops[0] {
        case Report(_, _, _) => BrakesAreSurges(s, h, clock, ops[0]);
        case Status(tenant, now) =>
          assert BrakeAgrees(s, h.brakes, clock, tenant);
          StatusFollowsHistory(s, h.brakes, clock, tenant, now);
        case Alarm(_) =>
        case Restart(_) =>
      }
      StepAgrees(s, h, clock, ops[0]);
      AnswersFollowHistory(Apply(s, ops[0]), Extended(h, ops[0]), ops[0].now, ops[1..]);
    }
  }

  const EMPTY := State(map[], map[], map[])
  const NOTHING := History([], [])

  /**
   * For every interleaving of reports, queries, alarms and restarts: a brake is applied iff the
   * tenant's five-minute volume logged since the last restart exceeds 35% of the pool's, and a
   * tenant is braked iff it was answered a brake within the last 60 seconds, restarts or not.
   */
  lemma CoordinatorFollowsHistory(clock: int, ops: seq<Op>)
    requires clock >= 0 && Legal(ops, clock)
    ensures Answers(EMPTY, ops) == HistoryAnswers(NOTHING, ops)
  {
    AnswersFollowHistory(EMPTY, NOTHING, clock, ops);
  }

  // ----- cleaning up

  /** An alarm forgets the brakes that are over, everything older than five minutes, and tenants left with nothing. */
  lemma AlarmForgets(s: State, now: int, tenant: string)
    ensures var after := AlarmStep(s, now);
            && (tenant in after.brakes <==> tenant in s.brakes && now <= s.brakes[tenant])
            && (tenant in after.brakes ==> after.brakes[tenant] == s.brakes[tenant])
            && (tenant in after.volumes <==> exists v :: v in Vols(s, tenant) && v.timestamp > now - 300000)
            && (tenant in after.volumes ==> after.volumes[tenant] == Keep(VOLUME, s.volumes[tenant], now - 300000))
            && after.disk == (if after.brakes == s.brakes then s.disk else after.brakes)
  {
    KeepMembers(VOLUME, Vols(s, tenant), now - FIVE_MINUTES);
    var kept := Keep(VOLUME, Vols(s, tenant), now - FIVE_MINUTES);
    if kept != [] {
      assert kept[0] in kept;
    }
  }

  // ----- cleaning up is invisible

  function WithoutAlarms(ops: seq<Op>): seq<Op> {
    if ops == [] then []
    else if ops[0].Alarm? then WithoutAlarms(ops[1..])
    else [ops[0]] + WithoutAlarms(ops[1..])
  }

  lemma {:induction false} AlarmsLeaveHistory(h: History, ops: seq<Op>)
    ensures HistoryAnswers(h, WithoutAlarms(ops)) == HistoryAnswers(h, ops)
    decreases |ops|
  {
    if ops != [] {
      AlarmsLeaveHistory(Extended(h, ops[0]), ops[1..]);
    }
  }

  lemma {:induction false} WithoutAlarmsLegal(ops: seq<Op>, clock: int, from: int)
    requires Legal(ops, clock) && 0 <= from <= clock
    ensures Legal(WithoutAlarms(ops), from)
    decreases |ops|
  {
    if ops != [] {
      var rest := WithoutAlarms(ops[1..]);
      if ops[0].Alarm? {
        WithoutAlarmsLegal(ops[1..], ops[0].now, from);
      } else {
        WithoutAlarmsLegal(ops[1..], ops[0].now, ops[0].now);
        assert ([ops[0]] + rest)[1..] == rest;
      }
    }
  }

  /** Alarms, whenever they run, change no answer. */
  lemma CleanupIsInvisible(clock: int, ops: seq<Op>)
    requires clock >= 0 && Legal(ops, clock)
    ensures Answers(EMPTY, ops) == Answers(EMPTY, WithoutAlarms(ops))
  {
    CoordinatorFollowsHistory(clock, ops);
    WithoutAlarmsLegal(ops, clock, clock);
    CoordinatorFollowsHistory(clock, WithoutAlarms(ops));
    AlarmsLeaveHistory(NOTHING, ops);
  }

  /** At no instant do three tenants exceed 35% of the pool. */
  lemma AtMostTwoSurge(reports: seq<Item>, a: string, b: string, c: string, now: int)
    requires NonNegative(TOTAL, reports) && a != b && b != c && a != c
    ensures !(Surges(reports, a, now) && Surges(reports, b, now) && Surges(reports, c, now))
  {
    ThreeShares(reports, a, b, c, now - FIVE_MINUTES);
    ShareAtMostTotal(reports, a, now - FIVE_MINUTES);
  }
}
