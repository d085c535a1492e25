/**
 * Candidate models for a request and failover across them
 * (src/router/cascade/evaluator.ts, fallback.ts, src/router/capability/filter.ts, sorter.ts, auditor.ts).
 */
module Cascade {
  import opened Text
  import opened Sorting
  import opened ModelRegistry

  // ----- capabilities

  datatype Capability = ActiveModel | Tools | Vision | JsonSchema | ContextLength | MaxOutput | Provider | CostLimit

  datatype Requirements = Requirements(onlyActive: bool, tools: bool, vision: bool, jsonSchema: bool,
                                       minContext: Option<int>, maxOutput: Option<int>, provider: Option<string>,
                                       maxCost: Option<int>)

  function When(missing: bool, c: Capability): seq<Capability> { if missing then [c] else [] }

  /** The capabilities a model lacks, in the order they are checked. */
  function Missing(m: ModelDef, r: Requirements): (cs: seq<Capability>) {
    When(r.onlyActive && !m.active, ActiveModel)
    + When(r.tools && !m.tools, Tools)
    + When(r.vision && !m.vision, Vision)
    + When(r.jsonSchema && !m.jsonSchema, JsonSchema)
    + When(r.minContext.Some? && r.minContext.value > 0 && m.contextWindow < r.minContext.value, ContextLength)
    + When(r.maxOutput.Some? && r.maxOutput.value > 0 && m.maxOutputTokens < r.maxOutput.value, MaxOutput)
    + When(r.provider.Some? && Trim(r.provider.value) != "" && Clean(m.provider) != Clean(r.provider.value), Provider)
    + When(r.maxCost.Some? && m.inputCost > r.maxCost.value, CostLimit)
  }

  predicate Capable(m: ModelDef, r: Requirements) { Missing(m, r) == [] }

  // ----- sorting

  datatype Strategy = CostAsc | CostDesc | ContextDesc | Unsorted

  /** Lexicographic comparison of equally long keys. */
  predicate LexLe(a: seq<int>, b: seq<int>)
    requires |a| == |b|
  {
    a == [] || a[0] < b[0] || (a[0] == b[0] && LexLe(a[1..], b[1..]))
  }

  /** The sort key of a model. `rank` stands for the locale's order of ids, whatever it is. */
  function SortKey(strategy: Strategy, rank: string -> int, m: ModelDef): (k: seq<int>)
    ensures |k| == 4
  {
    match strategy
    case CostAsc => [m.inputCost, m.outputCost, -m.contextWindow, rank(m.id)]
    case CostDesc => [-m.inputCost, -rank(m.id), 0, 0]
    case ContextDesc => [-m.contextWindow, m.inputCost, rank(m.id), 0]
    case Unsorted => [0, 0, 0, 0]
  }

  function Order(strategy: Strategy, rank: string -> int): (ModelDef, ModelDef) -> bool {
    (a: ModelDef, b: ModelDef) => LexLe(SortKey(strategy, rank, a), SortKey(strategy, rank, b))
  }

  lemma {:induction false} LexTotal(a: seq<int>, b: seq<int>)
    requires |a| == |b|
    ensures LexLe(a, b) || LexLe(b, a)
  {
    if a != [] && a[0] == b[0] {
      LexTotal(a[1..], b[1..]);
    }
  }

  lemma {:induction false} LexTransitive(a: seq<int>, b: seq<int>, c: seq<int>)
    requires |a| == |b| == |c| && LexLe(a, b) && LexLe(b, c)
    ensures LexLe(a, c)
  {
    if a != [] && a[0] == b[0] == c[0] {
      LexTransitive(a[1..], b[1..], c[1..]);
    }
  }

  lemma OrderIsTotal(strategy: Strategy, rank: string -> int)
    ensures TotalPreorder(Order(strategy, rank))
  {
    var le := Order(strategy, rank);
    forall x, y
      ensures le(x, y) || le(y, x)
    {
      LexTotal(SortKey(strategy, rank, x), SortKey(strategy, rank, y));
    }
    forall x, y, z | le(x, y) && le(y, z)
      ensures le(x, z)
    {
      LexTransitive(SortKey(strategy, rank, x), SortKey(strategy, rank, y), SortKey(strategy, rank, z));
    }
  }

  function CapableOf(r: Requirements): ModelDef -> bool { (m: ModelDef) => Capable(m, r) }

  /** All models a request may use, in registry order. */
  function Fitting(models: seq<ModelDef>, r: Requirements): (fit: seq<ModelDef>) {
    Filtered(models, CapableOf(r))
  }

  /** `filterRegistry` */
  function FilterRegistry(g: Registry, r: Requirements, strategy: Strategy, rank: string -> int): (ms: seq<ModelDef>) {
    StableSort(Fitting(Models(g.slots, r.onlyActive), r), Order(strategy, rank))
  }

  // ----- resolving candidates

  function ResolveModel(g: Registry, idOrAlias: string): (r: Option<ModelDef>) {
    var c := Clean(idOrAlias);
    var direct := Find(g.slots, c);
    if direct.Some? then (if direct.value.active then direct else None)
    else
      var id := Resolve(g, c);
      if id.None? || id.value == "" then None
      else
        var m := Find(g.slots, Clean(id.value));
        if m.Some? && m.value.active then m else None
  }

  predicate Generic(alias: string) {
    Clean(alias) in {"", "auto", "cheapest", "default", "cascade"}
  }

  datatype Query = Query(alias: string, requirements: Requirements, fallbacks: seq<string>, strategy: Strategy,
                         allowEscalation: bool)

  datatype Resolution =
    | Candidates(models: seq<ModelDef>)
    | ContextWindowExceeded
    | CapabilityMismatch(missing: seq<Capability>)
    | ModelNotFound
    | NoAvailableProvider

  function NamedCapabilities(r: Requirements): seq<Capability> {
    When(r.tools, Tools) + When(r.vision, Vision) + When(r.jsonSchema, JsonSchema)
    + When(r.minContext.Some? && r.minContext.value > 0, ContextLength)
    + When(r.maxOutput.Some? && r.maxOutput.value > 0, MaxOutput)
  }

  predicate HasId(ms: seq<ModelDef>, id: string) {
    exists i | 0 <= i < |ms| :: ms[i].id == id
  }

  /** Keeps the first model of each id. */
  function Unique(ms: seq<ModelDef>): (u: seq<ModelDef>) {
    if ms == [] then []
    else
      var u, m := Unique(ms[..|ms| - 1]), ms[|ms| - 1];
      if HasId(u, m.id) then u else u + [m]
  }

  /** The explicit fallbacks that resolve to a capable model. */
  function Fallbacks(g: Registry, r: Requirements, names: seq<string>): (ms: seq<ModelDef>) {
    if names == [] then []
    else
      var n := |names| - 1;
      var m := ResolveModel(g, names[n]);
      Fallbacks(g, r, names[..n]) + (if m.Some? && Capable(m.value, r) then [m.value] else [])
  }

  function Resolved(g: Registry, q: Query, rank: string -> int): (res: Resolution) {
    var alias := Trim(q.alias);
    var r := q.requirements;
    var sorted := FilterRegistry(g, r, q.strategy, rank);
    if Generic(alias) then
      if sorted != [] then Candidates(sorted)
      else if NamedCapabilities(r) != [] then CapabilityMismatch(NamedCapabilities(r))
      else NoAvailableProvider
    else
      var target := ResolveModel(g, alias);
      if target.None? then ModelNotFound
      else
        var missing := Missing(target.value, r);
        if ContextLength in missing then ContextWindowExceeded
        else if missing != [] && !q.allowEscalation then CapabilityMismatch(missing)
        else
          var head := if missing == [] then [target.value] else [];
          var ms := Unique(head + Fallbacks(g, r, q.fallbacks) + sorted);
          if ms == [] then CapabilityMismatch(missing) else Candidates(ms)
  }

  /** The list under construction together with the ids already in it. */
  method AppendNew(ms: seq<ModelDef>, seen: set<string>, m: ModelDef, ghost history: seq<ModelDef>)
    returns (ms': seq<ModelDef>, seen': set<string>)
    requires ms == Unique(history) && forall id :: id in seen <==> HasId(ms, id)
    ensures ms' == Unique(history + [m]) && forall id :: id in seen' <==> HasId(ms', id)
  {
    assert (history + [m])[..|history|] == history;
    ms', seen' := ms, seen;
    if m.id !in seen {
      ms' := ms + [m];
      seen' := seen + {m.id};
      HasIdSnoc(ms, m);
    }
  }

  lemma HasIdSnoc(ms: seq<ModelDef>, m: ModelDef)
    ensures forall id :: HasId(ms + [m], id) <==> HasId(ms, id) || id == m.id
  {
    forall id
      ensures HasId(ms + [m], id) <==> HasId(ms, id) || id == m.id
    {
      assert (ms + [m])[|ms|] == m;
      assert forall i | 0 <= i < |ms| :: (ms + [m])[i] == ms[i];
    }
  }

  method ResolveCandidates(g: Registry, q: Query, rank: string -> int) returns (res: Resolution)
    ensures res == Resolved(g, q, rank)
  {
    var alias, r := Trim(q.alias), q.requirements;
    if Generic(alias) {
      var sorted := FilterRegistry(g, r, q.strategy, rank);
      if sorted == [] {
        var missingCaps := NamedCapabilities(r);
        return if missingCaps != [] then CapabilityMismatch(missingCaps) else NoAvailableProvider;
      }
      return Candidates(sorted);
    }
    var target := ResolveModel(g, alias);
    if target.None? {
      return ModelNotFound;
    }
    var missing := Missing(target.value, r);
    if missing != [] {
      if ContextLength in missing {
        return ContextWindowExceeded;
      }
      if !q.allowEscalation {
        return CapabilityMismatch(missing);
      }
    }
    var ms := Collect(g, q, rank, if missing == [] then [target.value] else []);
    return if ms == [] then CapabilityMismatch(missing) else Candidates(ms);
  }

  /** The list itself: the target if capable, then new fallbacks, then what is left in sort order. */
  method Collect(g: Registry, q: Query, rank: string -> int, head: seq<ModelDef>) returns (ms: seq<ModelDef>)
    requires |head| <= 1
    ensures ms == Unique(head + Fallbacks(g, q.requirements, q.fallbacks)
                         + FilterRegistry(g, q.requirements, q.strategy, rank))
  {
    var seen := {};
    ms := [];
    if head != [] {
      assert head == [] + [head[0]];
      ms, seen := AppendNew(ms, seen, head[0], []);
    }
    ghost var fallbacks := Fallbacks(g, q.requirements, q.fallbacks);
    ms, seen := AppendFallbacks(g, q.requirements, q.fallbacks, ms, seen, head);
    ms := AppendRest(FilterRegistry(g, q.requirements, q.strategy, rank), ms, seen, head + fallbacks);
  }

  method AppendFallbacks(g: Registry, r: Requirements, names: seq<string>, ms: seq<ModelDef>, seen: set<string>,
                         ghost history: seq<ModelDef>)
    returns (ms': seq<ModelDef>, seen': set<string>)
    requires ms == Unique(history) && forall id :: id in seen <==> HasId(ms, id)
    ensures ms' == Unique(history + Fallbacks(g, r, names)) && forall id :: id in seen' <==> HasId(ms', id)
  {
    ms', seen' := ms, seen;
    ghost var added: seq<ModelDef> := [];
    assert history + [] == history;
    for i := 0 to |names|
      invariant added == Fallbacks(g, r, names[..i])
      invariant ms' == Unique(history + added) && forall id :: id in seen' <==> HasId(ms', id)
    {
      assert names[..i + 1][..i] == names[..i];
      var m := ResolveModel(g, names[i]);
      if m.Some? && Capable(m.value, r) {
        ms', seen' := AppendNew(ms', seen', m.value, history + added);
        assert history + added + [m.value] == history + (added + [m.value]);
        added := added + [m.value];
      }
    }
    assert names[..|names|] == names;
  }

  method AppendRest(sorted: seq<ModelDef>, ms: seq<ModelDef>, seen: set<string>, ghost history: seq<ModelDef>)
    returns (ms': seq<ModelDef>)
    requires ms == Unique(history) && forall id :: id in seen <==> HasId(ms, id)
    ensures ms' == Unique(history + sorted)
  {
    ms' := ms;
    var seen' := seen;
    ghost var all := history;
    for i := 0 to |sorted|
      invariant all == history + sorted[..i]
      invariant ms' == Unique(all) && forall id :: id in seen' <==> HasId(ms', id)
    {
      ms', seen' := AppendNew(ms', seen', sorted[i], all);
      all := all + [sorted[i]];
    }
    assert all == history + sorted;
  }

  // ----- the list is exact

  predicate NoRepeats(ms: seq<ModelDef>) {
    forall i, j | 0 <= i < j < |ms| :: ms[i].id != ms[j].id
  }

  lemma {:induction false} UniqueProperties(ms: seq<ModelDef>)
    ensures NoRepeats(Unique(ms))
    ensures forall m | m in Unique(ms) :: m in ms
    ensures forall i | 0 <= i < |ms| :: HasId(Unique(ms), ms[i].id)
  {
    if ms != [] {
      var n := |ms| - 1;
      UniqueProperties(ms[..n]);
      var u := Unique(ms[..n]);
      assert forall i | 0 <= i < n :: ms[..n][i] == ms[i];
      HasIdSnoc(u, ms[n]);
      if !HasId(u, ms[n].id) {
        assert forall i | 0 <= i < |u| :: u[i].id != ms[n].id;
      }
    }
  }

  lemma {:induction false} UniqueOfNew(ms: seq<ModelDef>, more: seq<ModelDef>)
    ensures Unique(ms) <= Unique(ms + more)
    decreases |more|
  {
    if more == [] {
      assert ms + more == ms;
    } else {
      assert (ms + more)[..|ms + more| - 1] == ms + more[..|more| - 1];
      UniqueOfNew(ms, more[..|more| - 1]);
    }
  }

  lemma {:induction false} FilteredMembers(models: seq<ModelDef>, p: ModelDef -> bool)
    ensures forall m :: m in Filtered(models, p) <==> m in models && p(m)
  {
    if models != [] {
      var n := |models| - 1;
      FilteredMembers(models[..n], p);
      assert models == models[..n] + [models[n]];
    }
  }

  lemma FittingMembers(models: seq<ModelDef>, r: Requirements)
    ensures forall m :: m in Fitting(models, r) <==> m in models && Capable(m, r)
  {
    FilteredMembers(models, CapableOf(r));
    assert forall m :: CapableOf(r)(m) == Capable(m, r);
  }

  lemma {:induction false} FilteredNoRepeats(models: seq<ModelDef>, p: ModelDef -> bool)
    requires NoRepeats(models)
    ensures NoRepeats(Filtered(models, p))
  {
    if models != [] {
      var n := |models| - 1;
      FilteredNoRepeats(models[..n], p);
      FilteredMembers(models[..n], p);
      var fit := Filtered(models[..n], p);
      forall i | 0 <= i < |fit|
        ensures fit[i].id != models[n].id
      {
        assert fit[i] in fit;
        var j :| 0 <= j < n && models[..n][j] == fit[i];
      }
    }
  }

  lemma {:induction false} ModelsNoRepeats(slots: seq<Slot>, onlyActive: bool)
    requires WellKeyed(slots)
    ensures NoRepeats(Models(slots, onlyActive))
  {
    if slots != [] {
      var n := |slots| - 1;
      ModelsNoRepeats(slots[..n], onlyActive);
      ModelsAreSlots(slots[..n], onlyActive);
      var before := Models(slots[..n], onlyActive);
      forall i | 0 <= i < |before|
        ensures before[i].id != slots[n].model.id
      {
        assert before[i] in before;
        var j :| 0 <= j < n && slots[..n][j].model == before[i];
        assert slots[j] in slots && slots[n] in slots && slots[j].key != slots[n].key;
      }
    }
  }

  /** A resolved model is registered and active. */
  lemma ResolvedIsListed(g: Registry, name: string, onlyActive: bool)
    requires ResolveModel(g, name).Some?
    ensures ResolveModel(g, name).value in Models(g.slots, onlyActive)
  {
    var c := Clean(name);
    FindKey(g.slots, c);
    ModelsAreSlots(g.slots, onlyActive);
    if Find(g.slots, c).None? {
      FindKey(g.slots, Clean(Resolve(g, c).value));
    }
  }

  lemma {:induction false} FallbacksFit(g: Registry, r: Requirements, names: seq<string>)
    ensures forall m | m in Fallbacks(g, r, names) :: m in Fitting(Models(g.slots, r.onlyActive), r)
  {
    if names != [] {
      var n := |names| - 1;
      FallbacksFit(g, r, names[..n]);
      var m := ResolveModel(g, names[n]);
      if m.Some? && Capable(m.value, r) {
        ResolvedIsListed(g, names[n], r.onlyActive);
        FittingMembers(Models(g.slots, r.onlyActive), r);
      }
    }
  }

  /** Two lists without repeated ids and with the same members are permutations of each other. */
  lemma {:induction false} SameMembersSameBag(a: seq<ModelDef>, b: seq<ModelDef>)
    requires NoRepeats(a) && NoRepeats(b) && (forall m | m in a :: m in b) && (forall m | m in b :: m in a)
    ensures multiset(a) == multiset(b)
  {
    forall m
      ensures multiset(a)[m] == multiset(b)[m]
    {
      NoRepeatsCount(a, m);
      NoRepeatsCount(b, m);
    }
  }

  lemma {:induction false} NoRepeatsCount(a: seq<ModelDef>, m: ModelDef)
    requires NoRepeats(a)
    ensures multiset(a)[m] == if m in a then 1 else 0
  {
    if a != [] {
      var n := |a| - 1;
      assert a == a[..n] + [a[n]];
      NoRepeatsCount(a[..n], m);
    }
  }

  lemma {:induction false} UniqueIsPermutation(before: seq<ModelDef>, sorted: seq<ModelDef>)
    requires NoRepeats(sorted) && forall m | m in before :: m in sorted
    ensures multiset(Unique(before + sorted)) == multiset(sorted)
  {
    var all := before + sorted;
    var u := Unique(all);
    UniqueProperties(all);
    forall m | m in sorted
      ensures m in u
    {
      var i :| 0 <= i < |sorted| && sorted[i] == m;
      assert all[|before| + i] == m;
      assert HasId(u, m.id);
      var j :| 0 <= j < |u| && u[j].id == m.id;
      assert u[j] in u && u[j] in sorted;
    }
    SameMembersSameBag(u, sorted);
  }

  lemma NoRepeatsOfSort(ms: seq<ModelDef>, le: (ModelDef, ModelDef) -> bool)
    requires NoRepeats(ms)
    ensures NoRepeats(StableSort(ms, le))
  {
    SortPermutes(ms, le);
    var s := StableSort(ms, le);
    forall i, j | 0 <= i < j < |s|
      ensures s[i].id != s[j].id
    {
      if s[i].id == s[j].id {
        assert s[i] in multiset(s) && s[j] in multiset(s);
        assert s[i] in ms && s[j] in ms;
        assert s[i] == s[j] by { SameIdSameModel(ms, s[i], s[j]); }
        NoRepeatsCount(ms, s[i]);
        TwiceInBag(s, i, j);
        assert false;
      }
    }
  }

  lemma SameIdSameModel(ms: seq<ModelDef>, a: ModelDef, b: ModelDef)
    requires NoRepeats(ms) && a in ms && b in ms && a.id == b.id
    ensures a == b
  {
  }

  lemma TwiceInBag(s: seq<ModelDef>, i: nat, j: nat)
    requires i < j < |s| && s[i] == s[j]
    ensures multiset(s)[s[i]] >= 2
  {
    assert s == s[..j] + [s[j]] + s[j + 1..];
    assert s[i] in s[..j];
  }

  /** What is left after the head and the fallbacks, in sort order. */
  function Rest(before: seq<ModelDef>, sorted: seq<ModelDef>): (ms: seq<ModelDef>) {
    if sorted == [] then []
    else
      var n := |sorted| - 1;
      Rest(before, sorted[..n]) + (if HasId(before, sorted[n].id) then [] else [sorted[n]])
  }

  lemma {:induction false} RestIds(before: seq<ModelDef>, sorted: seq<ModelDef>, id: string)
    requires HasId(Rest(before, sorted), id)
    ensures HasId(sorted, id)
  {
    var n := |sorted| - 1;
    assert sorted == sorted[..n] + [sorted[n]];
    HasIdSnoc(sorted[..n], sorted[n]);
    HasIdSnoc(Rest(before, sorted[..n]), sorted[n]);
    if HasId(Rest(before, sorted[..n]), id) {
      RestIds(before, sorted[..n], id);
    }
  }

  lemma {:induction false} UniqueSplits(before: seq<ModelDef>, sorted: seq<ModelDef>)
    requires NoRepeats(sorted)
    ensures Unique(before + sorted) == Unique(before) + Rest(Unique(before), sorted)
  {
    var u := Unique(before);
    if sorted == [] {
      assert before + sorted == before;
      assert u + [] == u;
    } else {
      var n := |sorted| - 1;
      var all, m := before + sorted, sorted[n];
      assert all[..|all| - 1] == before + sorted[..n] && all[|all| - 1] == m;
      UniqueSplits(before, sorted[..n]);
      var rest := Rest(u, sorted[..n]);
      if HasId(rest, m.id) {
        RestIds(u, sorted[..n], m.id);
        assert false;
      }
      HasIdAppend(u, rest, m.id);
      assert u + rest + [m] == u + (rest + [m]);
      assert rest + [] == rest;
    }
  }

  lemma HasIdAppend(a: seq<ModelDef>, b: seq<ModelDef>, id: string)
    ensures HasId(a + b, id) <==> HasId(a, id) || HasId(b, id)
  {
    if HasId(b, id) {
      var i :| 0 <= i < |b| && b[i].id == id;
      assert (a + b)[|a| + i].id == id;
    }
    if HasId(a, id) {
      var i :| 0 <= i < |a| && a[i].id == id;
      assert (a + b)[i].id == id;
    }
  }

  lemma {:induction false} RestIsOrdered(before: seq<ModelDef>, sorted: seq<ModelDef>, le: (ModelDef, ModelDef) -> bool)
    requires SortedBy(sorted, le)
    ensures SortedBy(Rest(before, sorted), le)
    ensures forall m | m in Rest(before, sorted) :: m in sorted
  {
    if sorted != [] {
      var n := |sorted| - 1;
      RestIsOrdered(before, sorted[..n], le);
      var rest := Rest(before, sorted[..n]);
      forall i | 0 <= i < |rest|
        ensures le(rest[i], sorted[n])
      {
        assert rest[i] in rest;
        var j :| 0 <= j < n && sorted[..n][j] == rest[i];
        assert le(sorted[j], sorted[n]);
      }
    }
  }

  /** The sorted list of all models the request may use has no repeats and leaves none out. */
  lemma FilterRegistryIsExact(g: Registry, r: Requirements, strategy: Strategy, rank: string -> int)
    requires WellKeyed(g.slots)
    ensures var sorted := FilterRegistry(g, r, strategy, rank);
            && multiset(sorted) == multiset(Fitting(Models(g.slots, r.onlyActive), r))
            && NoRepeats(sorted) && SortedBy(sorted, Order(strategy, rank))
            && forall m :: m in sorted <==> m in Models(g.slots, r.onlyActive) && Capable(m, r)
  {
    var models := Models(g.slots, r.onlyActive);
    var fit := Fitting(models, r);
    var sorted := FilterRegistry(g, r, strategy, rank);
    ModelsNoRepeats(g.slots, r.onlyActive);
    FilteredNoRepeats(models, CapableOf(r));
    SortPermutes(fit, Order(strategy, rank));
    NoRepeatsOfSort(fit, Order(strategy, rank));
    OrderIsTotal(strategy, rank);
    SortSorts(fit, Order(strategy, rank));
    FittingMembers(models, r);
    forall m
      ensures m in sorted <==> m in models && Capable(m, r)
    {
      assert m in sorted <==> m in multiset(sorted);
      assert m in fit <==> m in multiset(fit);
    }
  }

  /** A permutation, without repeats, of the models that the registry lists and the request can use. */
  ghost predicate ExactlyFitting(g: Registry, r: Requirements, ms: seq<ModelDef>) {
    && NoRepeats(ms)
    && multiset(ms) == multiset(Fitting(Models(g.slots, r.onlyActive), r))
    && forall m :: m in ms <==> m in Models(g.slots, r.onlyActive) && Capable(m, r)
  }

  /** First the head, then the other preferred models, then the rest in order. */
  predicate Arranged(ms: seq<ModelDef>, head: seq<ModelDef>, preferred: seq<ModelDef>,
                     le: (ModelDef, ModelDef) -> bool)
  {
    head <= preferred <= ms && SortedBy(ms[|preferred|..], le)
  }

  /** The capable target of a query, if it has one. */
  function Head(g: Registry, q: Query): (head: seq<ModelDef>)
    ensures |head| <= 1
  {
    var target := ResolveModel(g, Trim(q.alias));
    if !Generic(Trim(q.alias)) && target.Some? && Capable(target.value, q.requirements) then [target.value] else []
  }

  /** The target and the explicit fallbacks, each at its first occurrence. */
  function Preferred(g: Registry, q: Query): (ms: seq<ModelDef>) {
    if Generic(Trim(q.alias)) then [] else Unique(Head(g, q) + Fallbacks(g, q.requirements, q.fallbacks))
  }

  lemma ArrangedUnique(head: seq<ModelDef>, fallbacks: seq<ModelDef>, sorted: seq<ModelDef>,
                       le: (ModelDef, ModelDef) -> bool)
    requires |head| <= 1 && NoRepeats(sorted) && SortedBy(sorted, le)
    ensures Arranged(Unique(head + fallbacks + sorted), head, Unique(head + fallbacks), le)
  {
    var before := head + fallbacks;
    UniqueSplits(before, sorted);
    RestIsOrdered(Unique(before), sorted, le);
    UniqueOfNew(head, fallbacks);
    assert Unique(head) == head by {
      if head != [] {
        assert head[..0] == [] && !HasId([], head[0].id);
        assert [] + [head[0]] == head;
      }
    }
    var ms := Unique(before + sorted);
    assert ms[|Unique(before)|..] == Rest(Unique(before), sorted);
  }

  lemma ListIsFitting(g: Registry, q: Query, rank: string -> int)
    requires WellKeyed(g.slots)
    ensures ExactlyFitting(g, q.requirements, Unique(Head(g, q) + Fallbacks(g, q.requirements, q.fallbacks)
                                                     + FilterRegistry(g, q.requirements, q.strategy, rank)))
  {
    var r := q.requirements;
    var fallbacks, sorted := Fallbacks(g, r, q.fallbacks), FilterRegistry(g, r, q.strategy, rank);
    var before := Head(g, q) + fallbacks;
    FilterRegistryIsExact(g, r, q.strategy, rank);
    forall m | m in before
      ensures m in sorted
    {
      FittingMembers(Models(g.slots, r.onlyActive), r);
      FallbacksFit(g, r, q.fallbacks);
      if m in Head(g, q) {
        ResolvedIsListed(g, Trim(q.alias), r.onlyActive);
      }
    }
    UniqueIsPermutation(before, sorted);
    UniqueProperties(before + sorted);
    SameBagSameMembers(Unique(before + sorted), sorted);
  }

  lemma SameBagSameMembers(a: seq<ModelDef>, b: seq<ModelDef>)
    requires multiset(a) == multiset(b)
    ensures forall m :: m in a <==> m in b
  {
    assert forall m :: m in a <==> m in multiset(a);
    assert forall m :: m in b <==> m in multiset(b);
  }

  /** What a successful resolution returns. */
  lemma ResolvedList(g: Registry, q: Query, rank: string -> int)
    ensures var res, sorted := Resolved(g, q, rank), FilterRegistry(g, q.requirements, q.strategy, rank);
            res.Candidates? ==>
              && res.models != []
              && res.models == if Generic(Trim(q.alias)) then sorted
                               else Unique(Head(g, q) + Fallbacks(g, q.requirements, q.fallbacks) + sorted)
  {
    if !Generic(Trim(q.alias)) && ResolveModel(g, Trim(q.alias)).Some? {
      HeadIsTarget(g, q, ResolveModel(g, Trim(q.alias)).value);
    }
  }

  lemma HeadIsTarget(g: Registry, q: Query, target: ModelDef)
    requires !Generic(Trim(q.alias)) && ResolveModel(g, Trim(q.alias)) == Some(target)
    ensures Head(g, q) == if Missing(target, q.requirements) == [] then [target] else []
  {
  }

  /**
   * The candidate list is exact: a permutation, without repeats, of the capable models; the capable
   * target comes first, then the explicit fallbacks by first occurrence, then the rest in sort order.
   */
  lemma CandidatesAreExact(ops: seq<Op>, q: Query, rank: string -> int)
    ensures var g := Run(EMPTY, ops);
            Resolved(g, q, rank).Candidates? ==>
              var ms := Resolved(g, q, rank).models;
              && ms != [] && ExactlyFitting(g, q.requirements, ms)
              && Arranged(ms, Head(g, q), Preferred(g, q), Order(q.strategy, rank))
  {
    RunWellKeyed(EMPTY, ops);
    if Resolved(Run(EMPTY, ops), q, rank).Candidates? {
      ListIsExact(Run(EMPTY, ops), q, rank);
    }
  }

  lemma ListIsExact(g: Registry, q: Query, rank: string -> int)
    requires WellKeyed(g.slots) && Resolved(g, q, rank).Candidates?
    ensures var ms := Resolved(g, q, rank).models;
            && ms != [] && ExactlyFitting(g, q.requirements, ms)
            && Arranged(ms, Head(g, q), Preferred(g, q), Order(q.strategy, rank))
  {
    var sorted := FilterRegistry(g, q.requirements, q.strategy, rank);
    ResolvedList(g, q, rank);
    FilterRegistryIsExact(g, q.requirements, q.strategy, rank);
    if Generic(Trim(q.alias)) {
      assert sorted[0..] == sorted;
    } else {
      ListIsFitting(g, q, rank);
      ArrangedUnique(Head(g, q), Fallbacks(g, q.requirements, q.fallbacks), sorted, Order(q.strategy, rank));
    }
  }
}
