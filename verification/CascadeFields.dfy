/**
 * Candidate resolution told by the fields of models and requests
 * (src/router/cascade/evaluator.ts, src/router/capability/auditor.ts, sorter.ts, src/router/registry/registry.ts).
 */
module CascadeFields {
  import opened Text
  import opened Sorting
  import opened ModelRegistry
  import opened Cascade

  predicate Registered(g: Registry, m: ModelDef) {
    exists i | 0 <= i < |g.slots| :: g.slots[i].model == m
  }

  /** The model has what is asked for, field by field. */
  predicate Meets(m: ModelDef, r: Requirements) {
    && (r.onlyActive ==> m.active)
    && (r.tools ==> m.tools)
    && (r.vision ==> m.vision)
    && (r.jsonSchema ==> m.jsonSchema)
    && !ContextTooSmall(m, r)
    && !OutputTooSmall(m, r)
    && !OtherProvider(m, r)
    && !TooExpensive(m, r)
  }

  predicate ContextTooSmall(m: ModelDef, r: Requirements) {
    r.minContext.Some? && r.minContext.value > 0 && r.minContext.value > m.contextWindow
  }

  predicate OutputTooSmall(m: ModelDef, r: Requirements) {
    r.maxOutput.Some? && r.maxOutput.value > 0 && r.maxOutput.value > m.maxOutputTokens
  }

  /** Providers are compared without white space around them and without letter case. */
  predicate OtherProvider(m: ModelDef, r: Requirements) {
    r.provider.Some? && Trim(r.provider.value) != "" && Lower(Trim(r.provider.value)) != Lower(Trim(m.provider))
  }

  predicate TooExpensive(m: ModelDef, r: Requirements) { r.maxCost.Some? && r.maxCost.value < m.inputCost }

  /** Names exactly the capabilities whose own condition fails. */
  predicate Names(missing: seq<Capability>, m: ModelDef, r: Requirements) {
    && (ActiveModel in missing <==> r.onlyActive && !m.active)
    && (Tools in missing <==> r.tools && !m.tools)
    && (Vision in missing <==> r.vision && !m.vision)
    && (JsonSchema in missing <==> r.jsonSchema && !m.jsonSchema)
    && (ContextLength in missing <==> ContextTooSmall(m, r))
    && (MaxOutput in missing <==> OutputTooSmall(m, r))
    && (Provider in missing <==> OtherProvider(m, r))
    && (CostLimit in missing <==> TooExpensive(m, r))
  }

  function Position(c: Capability): nat {
    match c
    case ActiveModel => 0
    case Tools => 1
    case Vision => 2
    case JsonSchema => 3
    case ContextLength => 4
    case MaxOutput => 5
    case Provider => 6
    case CostLimit => 7
  }

  /** In the order of the checks, each at most once. */
  predicate InOrder(cs: seq<Capability>) {
    forall i, j | 0 <= i < j < |cs| :: Position(cs[i]) < Position(cs[j])
  }

  lemma ProvidersCompared(m: ModelDef, r: Requirements)
    requires r.provider.Some?
    ensures Clean(m.provider) != Clean(r.provider.value) <==> Lower(Trim(m.provider)) != Lower(Trim(r.provider.value))
  {
    CleanOfTrimmed(m.provider);
    CleanOfTrimmed(r.provider.value);
  }

  /** In order, and all before the p-th. */
  predicate Below(cs: seq<Capability>, p: nat) { InOrder(cs) && forall c | c in cs :: Position(c) < p }

  lemma WhenSnoc(cs: seq<Capability>, missing: bool, c: Capability)
    requires Below(cs, Position(c))
    ensures Below(cs + When(missing, c), Position(c) + 1)
    ensures forall d :: d in cs + When(missing, c) <==> d in cs || (missing && d == c)
  {
  }

  lemma FirstFour(a: bool, b: bool, c: bool, d: bool)
    ensures var cs := When(a, ActiveModel) + When(b, Tools) + When(c, Vision) + When(d, JsonSchema);
            && Below(cs, 4)
            && (ActiveModel in cs <==> a) && (Tools in cs <==> b) && (Vision in cs <==> c) && (JsonSchema in cs <==> d)
  {
    var one := When(a, ActiveModel);
    WhenSnoc(one, b, Tools);
    WhenSnoc(one + When(b, Tools), c, Vision);
    WhenSnoc(one + When(b, Tools) + When(c, Vision), d, JsonSchema);
  }

  lemma LastFour(cs: seq<Capability>, a: bool, b: bool, c: bool, d: bool)
    requires Below(cs, 4)
    ensures var all := cs + When(a, ContextLength) + When(b, MaxOutput) + When(c, Provider) + When(d, CostLimit);
            && Below(all, 8)
            && (ContextLength in all <==> a) && (MaxOutput in all <==> b)
            && (Provider in all <==> c) && (CostLimit in all <==> d)
            && forall x | Position(x) < 4 :: x in all <==> x in cs
  {
    var one := cs + When(a, ContextLength);
    var two := one + When(b, MaxOutput);
    var three := two + When(c, Provider);
    WhenSnoc(cs, a, ContextLength);
    WhenSnoc(one, b, MaxOutput);
    WhenSnoc(two, c, Provider);
    WhenSnoc(three, d, CostLimit);
  }

  /** The capabilities chosen, in the order of the checks. */
  function Chosen(active: bool, tools: bool, vision: bool, json: bool, context: bool, output: bool, provider: bool,
                  cost: bool): (cs: seq<Capability>)
  {
    When(active, ActiveModel) + When(tools, Tools) + When(vision, Vision) + When(json, JsonSchema)
    + When(context, ContextLength) + When(output, MaxOutput) + When(provider, Provider) + When(cost, CostLimit)
  }

  lemma ChosenAre(active: bool, tools: bool, vision: bool, json: bool, context: bool, output: bool, provider: bool,
                  cost: bool)
    ensures var cs := Chosen(active, tools, vision, json, context, output, provider, cost);
            && InOrder(cs)
            && (ActiveModel in cs <==> active) && (Tools in cs <==> tools)
            && (Vision in cs <==> vision) && (JsonSchema in cs <==> json)
            && (ContextLength in cs <==> context) && (MaxOutput in cs <==> output)
            && (Provider in cs <==> provider) && (CostLimit in cs <==> cost)
  {
    FirstFour(active, tools, vision, json);
    LastFour(When(active, ActiveModel) + When(tools, Tools) + When(vision, Vision) + When(json, JsonSchema),
             context, output, provider, cost);
  }

  lemma MissingIsChosen(m: ModelDef, r: Requirements)
    ensures Missing(m, r)
            == Chosen(r.onlyActive && !m.active, r.tools && !m.tools, r.vision && !m.vision,
                      r.jsonSchema && !m.jsonSchema, ContextTooSmall(m, r), OutputTooSmall(m, r), OtherProvider(m, r),
                      TooExpensive(m, r))
  {
    if r.provider.Some? {
      ProvidersCompared(m, r);
    }
  }

  lemma ChosenNames(m: ModelDef, r: Requirements)
    ensures var cs := Chosen(r.onlyActive && !m.active, r.tools && !m.tools, r.vision && !m.vision,
                             r.jsonSchema && !m.jsonSchema, ContextTooSmall(m, r), OutputTooSmall(m, r),
                             OtherProvider(m, r), TooExpensive(m, r));
            Names(cs, m, r) && InOrder(cs)
  {
    ChosenAre(r.onlyActive && !m.active, r.tools && !m.tools, r.vision && !m.vision, r.jsonSchema && !m.jsonSchema,
              ContextTooSmall(m, r), OutputTooSmall(m, r), OtherProvider(m, r), TooExpensive(m, r));
  }

  lemma MissingNames(m: ModelDef, r: Requirements)
    ensures Names(Missing(m, r), m, r) && InOrder(Missing(m, r))
  {
    MissingIsChosen(m, r);
    ChosenNames(m, r);
  }

  lemma MissingNothing(m: ModelDef, r: Requirements)
    ensures Missing(m, r) == [] <==> Meets(m, r)
  {
    MissingNames(m, r);
    if Missing(m, r) != [] {
      assert Missing(m, r)[0] in Missing(m, r);
    }
  }

  // ----- names

  /** The routing keywords that name no model. */
  predicate Keyword(name: string) { Lower(Trim(name)) in {"", "auto", "cheapest", "default", "cascade"} }

  lemma GenericIsKeyword(name: string)
    ensures Generic(Trim(name)) <==> Keyword(name)
  {
    CleanOfTrimmed(name);
  }

  predicate RegisteredAs(g: Registry, name: string, m: ModelDef) {
    Registered(g, m) && Lower(Trim(m.id)) == Lower(Trim(name))
  }

  lemma FoundIsRegistered(g: Registry, name: string, m: ModelDef)
    requires WellKeyed(g.slots)
    ensures Find(g.slots, Clean(name)) == Some(m) <==> RegisteredAs(g, name, m)
  {
    CleanOfTrimmed(name);
    CleanOfTrimmed(m.id);
    FindKey(g.slots, Clean(name));
    if Find(g.slots, Clean(name)) == Some(m) {
      var i :| 0 <= i < |g.slots| && g.slots[i] == Slot(Clean(name), m);
      assert KeyOk(g.slots[i]);
    }
    if RegisteredAs(g, name, m) {
      var i :| 0 <= i < |g.slots| && g.slots[i].model == m;
      assert g.slots[i] in g.slots && KeyOk(g.slots[i]);
      SlotIsFound(g.slots, i);
    }
  }

  /**
   * A name stands for the model registered under it, if that is active; and where none is, for the
   * active model registered under what the name is an alias of.
   */
  lemma ResolvedByName(ops: seq<Op>, name: string, m: ModelDef)
    ensures var g := Run(EMPTY, ops);
            var id := Resolve(g, name);
            ResolveModel(g, name) == Some(m) <==>
              && m.active
              && (RegisteredAs(g, name, m) ||
                  ((forall k :: !RegisteredAs(g, name, k))
                   && id.Some? && id.value != "" && RegisteredAs(g, id.value, m)))
  {
    var g := Run(EMPTY, ops);
    RunWellKeyed(EMPTY, ops);
    CleanOfTrimmed(name);
    assert Resolve(g, Clean(name)) == Resolve(g, name);
    FoundIsRegistered(g, name, m);
    if Find(g.slots, Clean(name)).Some? {
      FoundIsRegistered(g, name, Find(g.slots, Clean(name)).value);
    } else {
      forall k
        ensures !RegisteredAs(g, name, k)
      {
        FoundIsRegistered(g, name, k);
      }
    }
    if Resolve(g, name).Some? {
      FoundIsRegistered(g, Resolve(g, name).value, m);
    }
  }

  // ----- what a resolution answers

  lemma ListedIsRegistered(g: Registry, m: ModelDef, r: Requirements)
    ensures m in Models(g.slots, r.onlyActive) && Capable(m, r) <==> Registered(g, m) && Meets(m, r)
  {
    MissingNothing(m, r);
    ModelsAreSlots(g.slots, r.onlyActive);
    if Registered(g, m) && Meets(m, r) {
      var i :| 0 <= i < |g.slots| && g.slots[i].model == m;
    }
  }

  /** A returned list holds exactly the registered models that have what is asked for, each once. */
  lemma CandidatesMeet(ops: seq<Op>, q: Query, rank: string -> int, m: ModelDef)
    requires Resolved(Run(EMPTY, ops), q, rank).Candidates?
    ensures m in Resolved(Run(EMPTY, ops), q, rank).models
            <==> Registered(Run(EMPTY, ops), m) && Meets(m, q.requirements)
    ensures NoRepeats(Resolved(Run(EMPTY, ops), q, rank).models)
  {
    CandidatesAreExact(ops, q, rank);
    ListedIsRegistered(Run(EMPTY, ops), m, q.requirements);
  }

  predicate Usable(g: Registry, r: Requirements) { exists i | 0 <= i < |g.slots| :: Meets(g.slots[i].model, r) }

  /** Some capability is asked for by name. */
  predicate Demanding(r: Requirements) {
    || r.tools || r.vision || r.jsonSchema
    || (r.minContext.Some? && r.minContext.value > 0) || (r.maxOutput.Some? && r.maxOutput.value > 0)
  }

  predicate NamesDemands(cs: seq<Capability>, r: Requirements) {
    && (Tools in cs <==> r.tools) && (Vision in cs <==> r.vision) && (JsonSchema in cs <==> r.jsonSchema)
    && (ContextLength in cs <==> r.minContext.Some? && r.minContext.value > 0)
    && (MaxOutput in cs <==> r.maxOutput.Some? && r.maxOutput.value > 0)
    && ActiveModel !in cs && Provider !in cs && CostLimit !in cs && InOrder(cs)
  }

  lemma DemandsAreChosen(r: Requirements)
    ensures NamedCapabilities(r)
            == Chosen(false, r.tools, r.vision, r.jsonSchema, r.minContext.Some? && r.minContext.value > 0,
                      r.maxOutput.Some? && r.maxOutput.value > 0, false, false)
  {
    assert When(false, ActiveModel) + When(r.tools, Tools) == When(r.tools, Tools);
    var cs := NamedCapabilities(r);
    assert cs + When(false, Provider) + When(false, CostLimit) == cs;
  }

  lemma DemandsNamed(r: Requirements)
    ensures NamesDemands(NamedCapabilities(r), r)
    ensures NamedCapabilities(r) != [] <==> Demanding(r)
  {
    DemandsAreChosen(r);
    ChosenAre(false, r.tools, r.vision, r.jsonSchema, r.minContext.Some? && r.minContext.value > 0,
              r.maxOutput.Some? && r.maxOutput.value > 0, false, false);
    if NamedCapabilities(r) != [] {
      assert NamedCapabilities(r)[0] in NamedCapabilities(r);
    }
  }

  lemma SortedMembers(g: Registry, r: Requirements, strategy: Strategy, rank: string -> int, m: ModelDef)
    requires WellKeyed(g.slots)
    ensures m in FilterRegistry(g, r, strategy, rank) <==> Registered(g, m) && Meets(m, r)
  {
    FilterRegistryIsExact(g, r, strategy, rank);
    ListedIsRegistered(g, m, r);
  }

  lemma SortedIsUsable(g: Registry, r: Requirements, strategy: Strategy, rank: string -> int)
    requires WellKeyed(g.slots)
    ensures FilterRegistry(g, r, strategy, rank) != [] <==> Usable(g, r)
  {
    var sorted := FilterRegistry(g, r, strategy, rank);
    if sorted != [] {
      SortedMembers(g, r, strategy, rank, sorted[0]);
      var i :| 0 <= i < |g.slots| && g.slots[i].model == sorted[0];
      assert Meets(g.slots[i].model, r);
    }
    if Usable(g, r) {
      var i :| 0 <= i < |g.slots| && Meets(g.slots[i].model, r);
      SortedMembers(g, r, strategy, rank, g.slots[i].model);
    }
  }

  /** A keyword is answered with the list, or with what was asked for in vain. */
  lemma KeywordOutcome(ops: seq<Op>, q: Query, rank: string -> int)
    requires Keyword(q.alias)
    ensures var g, r := Run(EMPTY, ops), q.requirements;
            var res := Resolved(g, q, rank);
            && (res.Candidates? <==> Usable(g, r))
            && (res.CapabilityMismatch? <==> !Usable(g, r) && Demanding(r))
            && (res.CapabilityMismatch? ==> NamesDemands(res.missing, r))
            && (res.NoAvailableProvider? <==> !Usable(g, r) && !Demanding(r))
  {
    RunWellKeyed(EMPTY, ops);
    GenericIsKeyword(q.alias);
    SortedIsUsable(Run(EMPTY, ops), q.requirements, q.strategy, rank);
    DemandsNamed(q.requirements);
  }

  /** A name that stands for no active model is not found. */
  lemma UnknownOutcome(ops: seq<Op>, q: Query, rank: string -> int)
    ensures var g := Run(EMPTY, ops);
            Resolved(g, q, rank).ModelNotFound? <==> !Keyword(q.alias) && ResolveModel(g, q.alias).None?
  {
    GenericIsKeyword(q.alias);
    TargetOfTrimmed(Run(EMPTY, ops), q.alias);
  }

  lemma TargetOfTrimmed(g: Registry, name: string)
    ensures ResolveModel(g, Trim(name)) == ResolveModel(g, name)
  {
    CleanOfTrimmed(name);
  }

  /**
   * A name that stands for a model: its context window comes first, then its other capabilities
   * unless escalation is allowed, and then only an empty list is an error.
   */
  lemma TargetOutcome(ops: seq<Op>, q: Query, rank: string -> int, target: ModelDef)
    requires !Keyword(q.alias) && ResolveModel(Run(EMPTY, ops), q.alias) == Some(target)
    ensures Resolved(Run(EMPTY, ops), q, rank).Candidates? ==> Resolved(Run(EMPTY, ops), q, rank).models != []
    ensures var g, r := Run(EMPTY, ops), q.requirements;
            var res := Resolved(g, q, rank);
            && (res.ContextWindowExceeded? <==> ContextTooSmall(target, r))
            && (res.CapabilityMismatch? <==>
                  !ContextTooSmall(target, r) && !Meets(target, r) && !(q.allowEscalation && Usable(g, r)))
            && (res.CapabilityMismatch? ==> Names(res.missing, target, r) && InOrder(res.missing))
            && (res.Candidates? <==>
                  Meets(target, r) || (!ContextTooSmall(target, r) && q.allowEscalation && Usable(g, r)))
            && (res.Candidates? && Meets(target, r) ==> target in res.models[..1])
  {
    var g := Run(EMPTY, ops);
    RunWellKeyed(EMPTY, ops);
    GenericIsKeyword(q.alias);
    TargetOfTrimmed(g, q.alias);
    MissingNames(target, q.requirements);
    MissingNothing(target, q.requirements);
    ListOfTarget(g, q, rank, target);
  }

  lemma ListOfTarget(g: Registry, q: Query, rank: string -> int, target: ModelDef)
    requires WellKeyed(g.slots) && !Generic(Trim(q.alias)) && ResolveModel(g, Trim(q.alias)) == Some(target)
    ensures var ms := Unique(Head(g, q) + Fallbacks(g, q.requirements, q.fallbacks)
                             + FilterRegistry(g, q.requirements, q.strategy, rank));
            && (ms != [] <==> Usable(g, q.requirements))
            && (Meets(target, q.requirements) ==> ms != [] && ms[0] == target)
            && Head(g, q) == if Missing(target, q.requirements) == [] then [target] else []
  {
    var r := q.requirements;
    var head, fallbacks, sorted := Head(g, q), Fallbacks(g, r, q.fallbacks), FilterRegistry(g, r, q.strategy, rank);
    var ms := Unique(head + fallbacks + sorted);
    HeadIsTarget(g, q, target);
    MissingNothing(target, r);
    ListIsFitting(g, q, rank);
    FilterRegistryIsExact(g, r, q.strategy, rank);
    SortedIsUsable(g, r, q.strategy, rank);
    SameEmptiness(ms, sorted);
    ArrangedUnique(head, fallbacks, sorted, Order(q.strategy, rank));
  }

  lemma SameEmptiness(a: seq<ModelDef>, b: seq<ModelDef>)
    requires multiset(a) == multiset(b)
    ensures a == [] <==> b == []
  {
    assert a != [] ==> a[0] in multiset(a);
    assert b != [] ==> b[0] in multiset(b);
  }

  // ----- the order of the list

  /** What each strategy puts first: lower or higher prices, or wider context; `rank` orders ids. */
  predicate Before(strategy: Strategy, rank: string -> int, a: ModelDef, b: ModelDef) {
    match strategy
    case CostAsc =>
      || a.inputCost < b.inputCost
      || (a.inputCost == b.inputCost && a.outputCost < b.outputCost)
      || (a.inputCost == b.inputCost && a.outputCost == b.outputCost && a.contextWindow > b.contextWindow)
      || (a.inputCost == b.inputCost && a.outputCost == b.outputCost && a.contextWindow == b.contextWindow
          && rank(a.id) <= rank(b.id))
    case CostDesc =>
      a.inputCost > b.inputCost || (a.inputCost == b.inputCost && rank(a.id) >= rank(b.id))
    case ContextDesc =>
      || a.contextWindow > b.contextWindow
      || (a.contextWindow == b.contextWindow && a.inputCost < b.inputCost)
      || (a.contextWindow == b.contextWindow && a.inputCost == b.inputCost && rank(a.id) <= rank(b.id))
    case Unsorted => true
  }

  lemma OrderMeans(strategy: Strategy, rank: string -> int, a: ModelDef, b: ModelDef)
    ensures Order(strategy, rank)(a, b) <==> Before(strategy, rank, a, b)
  {
    var k, l := SortKey(strategy, rank, a), SortKey(strategy, rank, b);
    LexOfFour(k, l);
  }

  lemma LexOfFour(k: seq<int>, l: seq<int>)
    requires |k| == |l| == 4
    ensures LexLe(k, l) <==>
            || k[0] < l[0]
            || (k[0] == l[0] && k[1] < l[1])
            || (k[0] == l[0] && k[1] == l[1] && k[2] < l[2])
            || (k[0] == l[0] && k[1] == l[1] && k[2] == l[2] && k[3] <= l[3])
  {
    var k1, l1 := k[1..], l[1..];
    var k2, l2 := k1[1..], l1[1..];
    var k3, l3 := k2[1..], l2[1..];
    assert LexLe(k3, l3) <==> k[3] <= l[3];
    assert LexLe(k2, l2) <==> k[2] < l[2] || (k[2] == l[2] && LexLe(k3, l3));
    assert LexLe(k1, l1) <==> k[1] < l[1] || (k[1] == l[1] && LexLe(k2, l2));
  }

  lemma ArrangedAt(ms: seq<ModelDef>, head: seq<ModelDef>, preferred: seq<ModelDef>, strategy: Strategy,
                   rank: string -> int, i: nat, j: nat)
    requires Arranged(ms, head, preferred, Order(strategy, rank)) && |preferred| <= i < j < |ms|
    ensures Before(strategy, rank, ms[i], ms[j])
  {
    var rest, n := ms[|preferred|..], |preferred|;
    assert rest[i - n] == ms[i] && rest[j - n] == ms[j];
    OrderMeans(strategy, rank, ms[i], ms[j]);
  }

  /** Behind the preferred models the strategy's order holds between any two. */
  lemma RestIsInOrder(ops: seq<Op>, q: Query, rank: string -> int, i: nat, j: nat)
    requires Resolved(Run(EMPTY, ops), q, rank).Candidates?
    requires |Preferred(Run(EMPTY, ops), q)| <= i < j < |Resolved(Run(EMPTY, ops), q, rank).models|
    ensures var ms := Resolved(Run(EMPTY, ops), q, rank).models;
            Before(q.strategy, rank, ms[i], ms[j])
  {
    var g := Run(EMPTY, ops);
    CandidatesAreExact(ops, q, rank);
    ArrangedAt(Resolved(g, q, rank).models, Head(g, q), Preferred(g, q), q.strategy, rank, i, j);
  }

  lemma {:induction false} AllPass<T>(s: seq<T>, p: T -> bool)
    requires forall x :: p(x)
    ensures Filtered(s, p) == s
  {
    if s != [] {
      AllPass(s[..|s| - 1], p);
    }
  }

  /** Without a strategy the models stay in the order of their registration. */
  lemma UnsortedStays(g: Registry, r: Requirements, rank: string -> int)
    ensures FilterRegistry(g, r, Unsorted, rank) == Fitting(Models(g.slots, r.onlyActive), r)
  {
    var fit, all := Fitting(Models(g.slots, r.onlyActive), r), (m: ModelDef) => true;
    forall a, b
      ensures Order(Unsorted, rank)(a, b)
    {
      OrderMeans(Unsorted, rank, a, b);
    }
    SortIsStable(fit, Order(Unsorted, rank), all);
    AllPass(fit, all);
    AllPass(StableSort(fit, Order(Unsorted, rank)), all);
  }

  lemma FallbacksSnoc(g: Registry, r: Requirements, names: seq<string>, name: string)
    ensures Fallbacks(g, r, names + [name])
            == Fallbacks(g, r, names) + (var m := ResolveModel(g, name);
                                         if m.Some? && Capable(m.value, r) then [m.value] else [])
  {
    assert (names + [name])[..|names|] == names;
  }

  lemma UniqueSnoc(ms: seq<ModelDef>, m: ModelDef)
    ensures Unique(ms + [m]) == if HasId(Unique(ms), m.id) then Unique(ms) else Unique(ms) + [m]
  {
    assert (ms + [m])[..|ms|] == ms;
  }

  function IfMeets(m: Option<ModelDef>, r: Requirements): (ms: seq<ModelDef>) {
    if m.Some? && Meets(m.value, r) then [m.value] else []
  }

  lemma IfCapable(m: Option<ModelDef>, r: Requirements)
    ensures IfMeets(m, r) == if m.Some? && Capable(m.value, r) then [m.value] else []
  {
    if m.Some? {
      MissingNothing(m.value, r);
    }
  }

  /** Without explicit fallbacks only the target is preferred, if it has what is asked for. */
  lemma PreferredStart(g: Registry, q: Query)
    requires !Keyword(q.alias) && q.fallbacks == []
    ensures Preferred(g, q) == IfMeets(ResolveModel(g, q.alias), q.requirements)
  {
    GenericIsKeyword(q.alias);
    TargetOfTrimmed(g, q.alias);
    IfCapable(ResolveModel(g, q.alias), q.requirements);
    assert Head(g, q) + [] == Head(g, q);
    UniqueOfHead(Head(g, q));
  }

  lemma PreferredAre(g: Registry, q: Query)
    requires !Keyword(q.alias)
    ensures Preferred(g, q) == Unique(Head(g, q) + Fallbacks(g, q.requirements, q.fallbacks))
  {
    GenericIsKeyword(q.alias);
  }

  lemma UniqueGrows(a: seq<ModelDef>, b: seq<ModelDef>, more: seq<ModelDef>)
    requires |more| <= 1
    ensures Unique(a + (b + more))
            == if more == [] || HasId(Unique(a + b), more[0].id) then Unique(a + b) else Unique(a + b) + more
  {
    if more == [] {
      assert b + more == b;
    } else {
      assert a + (b + more) == (a + b) + [more[0]] && more == [more[0]];
      UniqueSnoc(a + b, more[0]);
    }
  }

  /** One more explicit fallback is preferred last, if it has what is asked for and is not preferred already. */
  lemma PreferredGrow(g: Registry, q: Query, name: string)
    requires !Keyword(q.alias)
    ensures var before, more := Preferred(g, q), IfMeets(ResolveModel(g, name), q.requirements);
            Preferred(g, q.(fallbacks := q.fallbacks + [name]))
            == if more == [] || HasId(before, more[0].id) then before else before + more
  {
    var r, next := q.requirements, q.(fallbacks := q.fallbacks + [name]);
    PreferredAre(g, q);
    PreferredAre(g, next);
    assert Head(g, next) == Head(g, q);
    IfCapable(ResolveModel(g, name), r);
    FallbacksSnoc(g, r, q.fallbacks, name);
    UniqueGrows(Head(g, q), Fallbacks(g, r, q.fallbacks), IfMeets(ResolveModel(g, name), r));
  }

  lemma UniqueOfHead(head: seq<ModelDef>)
    requires |head| <= 1
    ensures Unique(head) == head
  {
    if head != [] {
      assert head[..0] == [] && !HasId([], head[0].id);
      assert [] + [head[0]] == head;
    }
  }
}
