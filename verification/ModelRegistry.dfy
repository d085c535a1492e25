/** The model registry: an insertion-ordered map of models and an alias table (src/router/registry/registry.ts). */
module ModelRegistry {
  import opened Text
  import opened Sorting

  datatype ModelDef = ModelDef(id: string, provider: string, inputCost: int, outputCost: int, cacheReadCost: int,
                               contextWindow: int, maxOutputTokens: int, aliases: seq<string>, active: bool,
                               tools: bool, vision: bool, jsonSchema: bool)

  /** `s.toLowerCase().trim()` */
  function Clean(s: string): string { Trim(Lower(s)) }

  /** White space around a name, and its letter case, do not count. */
  lemma CleanOfTrimmed(s: string)
    ensures Clean(Trim(s)) == Clean(s) == Lower(Trim(s)) && Clean(Clean(s)) == Clean(s)
  {
    TrimLower(s);
    TrimLower(Trim(s));
    TrimTwice(s);
    LowerTwice(Trim(s));
    TrimLower(Clean(s));
  }

  lemma LowerTwice(s: string)
    ensures Lower(Lower(s)) == Lower(s)
  {
  }

  /** A model under its key; the order is the order of insertion. */
  datatype Slot = Slot(key: string, model: ModelDef)

  datatype Registry = Registry(slots: seq<Slot>, overrides: map<string, string>)

  function Find(slots: seq<Slot>, key: string): (r: Option<ModelDef>) {
    if slots == [] then None
    else if slots[0].key == key then Some(slots[0].model)
    else Find(slots[1..], key)
  }

  /** `Map.set`: a known key keeps its place. */
  function Put(slots: seq<Slot>, key: string, model: ModelDef): (r: seq<Slot>) {
    if slots == [] then [Slot(key, model)]
    else if slots[0].key == key then [Slot(key, model)] + slots[1..]
    else [slots[0]] + Put(slots[1..], key, model)
  }

  function Delete(slots: seq<Slot>, key: string): (r: seq<Slot>) {
    if slots == [] then []
    else if slots[0].key == key then slots[1..]
    else [slots[0]] + Delete(slots[1..], key)
  }

  /** Aliases are trimmed and empty ones dropped. */
  function Normalized(aliases: seq<string>): (r: seq<string>) {
    if aliases == [] then []
    else (if Trim(aliases[0]) == "" then [] else [Trim(aliases[0])]) + Normalized(aliases[1..])
  }

  function Models(slots: seq<Slot>, onlyActive: bool): (r: seq<ModelDef>) {
    if slots == [] then []
    else
      var n := |slots| - 1;
      Models(slots[..n], onlyActive) + (if onlyActive && !slots[n].model.active then [] else [slots[n].model])
  }

  /** The overrides without those that point to `key`; the aliases in `rest` are left as they are. */
  function Without(overrides: map<string, string>, key: string, rest: set<string>): map<string, string> {
    map a | a in overrides && (a in rest || Clean(overrides[a]) != key) :: overrides[a]
  }

  // ----- steps

  datatype Op =
    | Register(model: ModelDef)
    | Unregister(id: string)
    | RegisterAlias(alias: string, id: string)
    | UnregisterAlias(alias: string)

  /** Invalid calls throw and change nothing. */
  function Apply(g: Registry, op: Op): Registry {
    match op
    case Register(m) =>
      if Trim(m.id) == "" then g
      else g.(slots := Put(g.slots, Clean(m.id), m.(aliases := Normalized(m.aliases))))
    case Unregister(id) =>
      Registry(Delete(g.slots, Clean(id)), Without(g.overrides, Clean(id), {}))
    case RegisterAlias(alias, id) =>
      if Clean(alias) == "" then g else g.(overrides := g.overrides[Clean(alias) := Trim(id)])
    case UnregisterAlias(alias) => g.(overrides := g.overrides - {Clean(alias)})
  }

  function Run(g: Registry, ops: seq<Op>): Registry
    decreases |ops|
  {
    if ops == [] then g else Run(Apply(g, ops[0]), ops[1..])
  }

  const EMPTY := Registry([], map[])

  // ----- the two ways to look up an alias

  predicate HasAlias(m: ModelDef, clean: string) {
    exists i | 0 <= i < |m.aliases| :: Clean(m.aliases[i]) == clean
  }

  /** The linear scan: the cheapest match, the first one among equals. */
  function Cheapest(models: seq<ModelDef>, clean: string): (r: Option<ModelDef>) {
    if models == [] then None
    else
      var best, m := Cheapest(models[..|models| - 1], clean), models[|models| - 1];
      if HasAlias(m, clean) && (best.None? || m.inputCost < best.value.inputCost) then Some(m) else best
  }

  function IdOf(m: Option<ModelDef>): Option<string> { if m.Some? then Some(m.value.id) else None }

  function Resolve(g: Registry, alias: string): (r: Option<string>) {
    var c := Clean(alias);
    if c in g.overrides && g.overrides[c] != "" then Some(g.overrides[c])
    else IdOf(Cheapest(Models(g.slots, true), c))
  }

  function ByCost(): (ModelDef, ModelDef) -> bool { (a: ModelDef, b: ModelDef) => a.inputCost <= b.inputCost }

  function Matching(clean: string): ModelDef -> bool { (m: ModelDef) => HasAlias(m, clean) }

  predicate ActiveTarget(g: Registry, id: string) {
    var m := Find(g.slots, Clean(id));
    m.Some? && m.value.active
  }

  /** What the alias index holds for a cleaned alias. */
  function Indexed(g: Registry, onlyActive: bool, clean: string): (r: Option<string>) {
    if Overrides(g, onlyActive, clean) then Some(g.overrides[clean])
    else IdOf(FirstMatch(StableSort(Models(g.slots, onlyActive), ByCost()), Matching(clean)))
  }

  /** The part of the index that comes from the models' own aliases, for the first i models. */
  ghost predicate IndexOf(m: map<string, string>, models: seq<ModelDef>) {
    forall c :: (c in m <==> FirstMatch(models, Matching(c)).Some?)
             && (c in m ==> m[c] == FirstMatch(models, Matching(c)).value.id)
  }

  /** The override of `c` makes it into the index. */
  predicate Overrides(g: Registry, onlyActive: bool, c: string) {
    c in g.overrides && (!onlyActive || ActiveTarget(g, g.overrides[c]))
  }

  /** An index with the overrides applied, except for the aliases in `rest`. */
  function Overridden(g: Registry, onlyActive: bool, m: map<string, string>, rest: set<string>): map<string, string> {
    map c | c in m.Keys + g.overrides.Keys && (c in m || (c !in rest && Overrides(g, onlyActive, c)))
      :: if c !in rest && Overrides(g, onlyActive, c) then g.overrides[c] else m[c]
  }

  lemma OverriddenStep(g: Registry, onlyActive: bool, m: map<string, string>, rest: set<string>, a: string)
    requires a in rest && rest <= g.overrides.Keys
    ensures Overridden(g, onlyActive, m, rest - {a})
            == if Overrides(g, onlyActive, a) then Overridden(g, onlyActive, m, rest)[a := g.overrides[a]]
               else Overridden(g, onlyActive, m, rest)
  {
  }

  class Registrar {
    var slots: seq<Slot>
    var overrides: map<string, string>

    ghost function View(): Registry
      reads this
    {
      Registry(slots, overrides)
    }

    constructor ()
      ensures View() == EMPTY
    {
      slots, overrides := [], map[];
    }

    method RegisterModel(m: ModelDef) returns (ok: bool)
      modifies this`slots
      ensures ok <==> Trim(m.id) != ""
      ensures View() == Apply(old(View()), Register(m))
    {
      if Trim(m.id) == "" {
        return false;
      }
      slots := Put(slots, Clean(m.id), m.(aliases := Normalized(m.aliases)));
      return true;
    }

    method UnregisterModel(id: string) returns (removed: bool)
      modifies this
      ensures removed <==> Find(old(slots), Clean(id)).Some?
      ensures View() == Apply(old(View()), Unregister(id))
    {
      var key := Clean(id);
      removed := Find(slots, key).Some?;
      slots := Delete(slots, key);
      DropOverridesTo(key);
    }

    method DropOverridesTo(key: string)
      modifies this`overrides
      ensures overrides == Without(old(overrides), key, {})
    {
      ghost var before := overrides;
      var rest := overrides.Keys;
      assert Without(before, key, rest) == before;
      while rest != {}
        invariant rest <= before.Keys && overrides == Without(before, key, rest)
        decreases |rest|
      {
        var a :| a in rest;
        if Clean(overrides[a]) == key {
          overrides := overrides - {a};
        }
        rest := rest - {a};
      }
    }

    method AddAlias(alias: string, id: string) returns (ok: bool)
      modifies this`overrides
      ensures ok <==> Clean(alias) != ""
      ensures View() == Apply(old(View()), RegisterAlias(alias, id))
    {
      if Clean(alias) == "" {
        return false;
      }
      overrides := overrides[Clean(alias) := Trim(id)];
      return true;
    }

    method RemoveAlias(alias: string) returns (removed: bool)
      modifies this`overrides
      ensures removed <==> Clean(alias) in old(overrides)
      ensures View() == Apply(old(View()), UnregisterAlias(alias))
    {
      removed := Clean(alias) in overrides;
      overrides := overrides - {Clean(alias)};
    }

    method ResolveAlias(alias: string) returns (r: Option<string>)
      ensures r == Resolve(View(), alias)
    {
      var c := Clean(alias);
      if c in overrides && overrides[c] != "" {
        return Some(overrides[c]);
      }
      var best: Option<ModelDef> := None;
      for i := 0 to |slots|
        invariant best == Cheapest(Models(slots[..i], true), c)
      {
        assert slots[..i + 1][..i] == slots[..i];
        var m := slots[i].model;
        var before := Models(slots[..i], true);
        assert (before + [m])[..|before|] == before && before + [] == before;
        assert Models(slots[..i + 1], true) == if m.active then before + [m] else before;
        if m.active && HasAlias(m, c) {
          if best.None? || m.inputCost < best.value.inputCost {
            best := Some(m);
          }
        }
      }
      assert slots[..|slots|] == slots;
      return if best.Some? then Some(best.value.id) else None;
    }

    method GetAliasMap(onlyActive: bool) returns (m: map<string, string>)
      ensures forall c :: (c in m <==> Indexed(View(), onlyActive, c).Some?)
                       && (c in m ==> m[c] == Indexed(View(), onlyActive, c).value)
    {
      var models := StableSort(Models(slots, onlyActive), ByCost());
      m := map[];
      for i := 0 to |models|
        invariant IndexOf(m, models[..i])
      {
        assert models[..i + 1] == models[..i] + [models[i]];
        m := IndexModel(m, models[..i], models[i]);
      }
      assert models[..|models|] == models;
      m := ApplyOverrides(m, onlyActive);
    }

    static method IndexModel(m: map<string, string>, ghost before: seq<ModelDef>, model: ModelDef)
      returns (r: map<string, string>)
      requires IndexOf(m, before)
      ensures IndexOf(r, before + [model])
    {
      r := m;
      for j := 0 to |model.aliases|
        invariant forall c :: c in r <==> c in m || exists i | 0 <= i < j :: Clean(model.aliases[i]) == c
        invariant forall c | c in r :: r[c] == if c in m then m[c] else model.id
      {
        var c := Clean(model.aliases[j]);
        if c !in r {
          r := r[c := model.id];
        }
      }
      forall c
        ensures (c in r <==> FirstMatch(before + [model], Matching(c)).Some?)
             && (c in r ==> r[c] == FirstMatch(before + [model], Matching(c)).value.id)
      {
        assert Matching(c)(model) == HasAlias(model, c);
      }
    }

    /** Overrides replace what the models' own aliases say. */
    method ApplyOverrides(m: map<string, string>, onlyActive: bool) returns (r: map<string, string>)
      ensures r == Overridden(View(), onlyActive, m, {})
    {
      r := m;
      var rest := overrides.Keys;
      while rest != {}
        invariant rest <= overrides.Keys && r == Overridden(View(), onlyActive, m, rest)
        decreases |rest|
      {
        var a :| a in rest;
        OverriddenStep(View(), onlyActive, m, rest, a);
        var target := Find(slots, Clean(overrides[a]));
        if !onlyActive || (target.Some? && target.value.active) {
          r := r[a := overrides[a]];
        }
        rest := rest - {a};
      }
    }
  }

  // ----- reachable registries

  predicate KeyOk(s: Slot) { s.key == Clean(s.model.id) && s.key != "" }

  predicate DistinctKeys(slots: seq<Slot>) {
    forall i, j | 0 <= i < j < |slots| :: slots[i].key != slots[j].key
  }

  /** Every model sits under the cleaned form of its id, no two under the same, none under the empty key. */
  predicate WellKeyed(slots: seq<Slot>) {
    (forall s | s in slots :: KeyOk(s)) && DistinctKeys(slots)
  }

  lemma {:induction false} TrimOfSpaces(s: string)
    ensures TrimStart(s) == "" <==> forall i | 0 <= i < |s| :: IsSpace(s[i])
  {
    if s != "" && IsSpace(s[0]) {
      TrimOfSpaces(s[1..]);
      assert forall i | 0 < i < |s| :: s[i] == s[1..][i - 1];
    }
  }

  lemma {:induction false} TrimEndKeeps(s: string)
    requires s != "" && !IsSpace(s[0])
    ensures TrimEnd(s) != ""
  {
    if IsSpace(s[|s| - 1]) {
      TrimEndKeeps(s[..|s| - 1]);
    }
  }

  lemma {:induction false} TrimStartShape(s: string)
    ensures TrimStart(s) != "" ==> !IsSpace(TrimStart(s)[0])
  {
    if s != "" && IsSpace(s[0]) {
      TrimStartShape(s[1..]);
    }
  }

  lemma TrimEmpty(s: string)
    ensures Trim(s) == "" <==> forall i | 0 <= i < |s| :: IsSpace(s[i])
  {
    TrimOfSpaces(s);
    TrimStartShape(s);
    if TrimStart(s) != "" {
      TrimEndKeeps(TrimStart(s));
    }
  }

  lemma CleanEmpty(s: string)
    ensures Clean(s) == "" <==> Trim(s) == ""
  {
    TrimEmpty(s);
    TrimEmpty(Lower(s));
    assert forall i | 0 <= i < |s| :: IsSpace(Lower(s)[i]) <==> IsSpace(s[i]);
  }

  lemma {:induction false} PutMembers(slots: seq<Slot>, key: string, model: ModelDef)
    ensures forall s | s in Put(slots, key, model) :: s == Slot(key, model) || s in slots
  {
    if slots != [] && slots[0].key != key {
      PutMembers(slots[1..], key, model);
    }
  }

  lemma DistinctTail(slots: seq<Slot>)
    requires DistinctKeys(slots) && slots != []
    ensures DistinctKeys(slots[1..]) && forall t | t in slots[1..] :: t.key != slots[0].key
  {
  }

  lemma {:induction false} PutDistinct(slots: seq<Slot>, key: string, model: ModelDef)
    requires DistinctKeys(slots)
    ensures DistinctKeys(Put(slots, key, model))
  {
    if slots != [] {
      DistinctTail(slots);
      if slots[0].key == key {
      } else {
        PutDistinct(slots[1..], key, model);
        PutMembers(slots[1..], key, model);
      }
    }
  }

  lemma PutKeys(slots: seq<Slot>, model: ModelDef)
    requires WellKeyed(slots) && Clean(model.id) != ""
    ensures WellKeyed(Put(slots, Clean(model.id), model))
  {
    PutDistinct(slots, Clean(model.id), model);
    PutMembers(slots, Clean(model.id), model);
  }

  lemma {:induction false} DeleteMembers(slots: seq<Slot>, key: string)
    ensures forall s | s in Delete(slots, key) :: s in slots
  {
    if slots != [] && slots[0].key != key {
      DeleteMembers(slots[1..], key);
    }
  }

  lemma {:induction false} DeleteDistinct(slots: seq<Slot>, key: string)
    requires DistinctKeys(slots)
    ensures DistinctKeys(Delete(slots, key))
  {
    if slots != [] {
      DistinctTail(slots);
      if slots[0].key != key {
        DeleteDistinct(slots[1..], key);
        DeleteMembers(slots[1..], key);
      }
    }
  }

  lemma DeleteKeys(slots: seq<Slot>, key: string)
    requires WellKeyed(slots)
    ensures WellKeyed(Delete(slots, key))
  {
    DeleteDistinct(slots, key);
    DeleteMembers(slots, key);
  }

  lemma StepWellKeyed(g: Registry, op: Op)
    requires WellKeyed(g.slots)
    ensures WellKeyed(Apply(g, op).slots)
  {
    match op {
      case Register(m) =>
        CleanEmpty(m.id);
        if Trim(m.id) != "" {
          PutKeys(g.slots, m.(aliases := Normalized(m.aliases)));
        }
      case Unregister(id) => DeleteKeys(g.slots, Clean(id));
      case RegisterAlias(_, _) =>
      case UnregisterAlias(_) =>
    }
  }

  lemma {:induction false} RunWellKeyed(g: Registry, ops: seq<Op>)
    requires WellKeyed(g.slots)
    ensures WellKeyed(Run(g, ops).slots)
    decreases |ops|
  {
    if ops != [] {
      StepWellKeyed(g, ops[0]);
      RunWellKeyed(Apply(g, ops[0]), ops[1..]);
    }
  }

  lemma {:induction false} FindKey(slots: seq<Slot>, key: string)
    ensures Find(slots, key).Some? ==> exists i | 0 <= i < |slots| :: slots[i] == Slot(key, Find(slots, key).value)
    ensures Find(slots, key).None? ==> forall i | 0 <= i < |slots| :: slots[i].key != key
  {
    if slots != [] {
      FindKey(slots[1..], key);
      if slots[0].key == key {
        assert slots[0] == Slot(key, Find(slots, key).value);
      } else {
        assert forall i | 0 < i < |slots| :: slots[i] == slots[1..][i - 1];
        if Find(slots, key).Some? {
          var i :| 0 <= i < |slots[1..]| && slots[1..][i] == Slot(key, Find(slots, key).value);
          assert slots[i + 1] == Slot(key, Find(slots, key).value);
        }
      }
    }
  }

  lemma {:induction false} ModelsAreSlots(slots: seq<Slot>, onlyActive: bool)
    ensures forall m | m in Models(slots, onlyActive) ::
              (onlyActive ==> m.active) && exists i | 0 <= i < |slots| :: slots[i].model == m
    ensures forall i | 0 <= i < |slots| ::
              (onlyActive ==> slots[i].model.active) ==> slots[i].model in Models(slots, onlyActive)
  {
    if slots != [] {
      var n := |slots| - 1;
      ModelsAreSlots(slots[..n], onlyActive);
      forall m | m in Models(slots, onlyActive)
        ensures exists i | 0 <= i < |slots| :: slots[i].model == m
      {
        if m in Models(slots[..n], onlyActive) {
          var i :| 0 <= i < n && slots[..n][i].model == m;
          assert slots[i].model == m;
        } else {
          assert slots[n].model == m;
        }
      }
      forall i | 0 <= i < |slots|
        ensures (onlyActive ==> slots[i].model.active) ==> slots[i].model in Models(slots, onlyActive)
      {
        if i < n {
          assert slots[..n][i] == slots[i];
        }
      }
    }
  }

  lemma {:induction false} SlotIsFound(slots: seq<Slot>, i: nat)
    requires DistinctKeys(slots) && i < |slots|
    ensures Find(slots, slots[i].key) == Some(slots[i].model)
  {
    if i > 0 {
      DistinctTail(slots);
      SlotIsFound(slots[1..], i - 1);
    }
  }

  // The slots behave as an insertion-ordered map.

  /** `Put` sets one key, leaves every other one alone, and moves no key. */
  lemma {:induction false} PutIsMapSet(slots: seq<Slot>, key: string, model: ModelDef, other: string)
    ensures Find(Put(slots, key, model), other) == if other == key then Some(model) else Find(slots, other)
    ensures Keys(Put(slots, key, model)) == if Find(slots, key).Some? then Keys(slots) else Keys(slots) + [key]
  {
    if slots != [] && slots[0].key != key {
      PutIsMapSet(slots[1..], key, model, other);
      var rest := Put(slots[1..], key, model);
      assert Put(slots, key, model)[1..] == rest;
      assert [slots[0].key] + (Keys(slots[1..]) + [key]) == ([slots[0].key] + Keys(slots[1..])) + [key];
    } else if slots != [] {
      assert Put(slots, key, model)[1..] == slots[1..];
    }
  }

  function Keys(slots: seq<Slot>): (ks: seq<string>) {
    if slots == [] then [] else [slots[0].key] + Keys(slots[1..])
  }

  /** `Delete` removes one key and leaves every other one alone. */
  lemma {:induction false} DeleteIsMapDelete(slots: seq<Slot>, key: string, other: string)
    requires DistinctKeys(slots)
    ensures Find(Delete(slots, key), other) == if other == key then None else Find(slots, other)
  {
    if slots != [] {
      DistinctTail(slots);
      if slots[0].key != key {
        DeleteIsMapDelete(slots[1..], key, other);
      } else {
        FindKey(slots[1..], key);
      }
    }
  }

  /** Unregistering leaves neither the model nor an override to it behind, and touches nothing else. */
  lemma UnregisterForgets(ops: seq<Op>, id: string, other: string, alias: string)
    ensures var g := Run(EMPTY, ops);
            var h := Apply(g, Unregister(id));
            && Find(h.slots, other) == (if other == Clean(id) then None else Find(g.slots, other))
            && (alias in h.overrides <==> alias in g.overrides && Clean(g.overrides[alias]) != Clean(id))
            && (alias in h.overrides ==> h.overrides[alias] == g.overrides[alias])
  {
    RunWellKeyed(EMPTY, ops);
    DeleteIsMapDelete(Run(EMPTY, ops).slots, Clean(id), other);
  }

  /** A listed model is found under its own id. */
  lemma ListedIsFound(slots: seq<Slot>, onlyActive: bool, m: ModelDef)
    requires WellKeyed(slots) && m in Models(slots, onlyActive)
    ensures Find(slots, Clean(m.id)) == Some(m)
  {
    ModelsAreSlots(slots, onlyActive);
    var i :| 0 <= i < |slots| && slots[i].model == m;
    SlotIsFound(slots, i);
    assert KeyOk(slots[i]);
  }

  lemma EmptyIsNoTarget(g: Registry)
    requires WellKeyed(g.slots)
    ensures !ActiveTarget(g, "")
  {
    CleanEmpty("");
    FindKey(g.slots, "");
    assert forall i | 0 <= i < |g.slots| :: g.slots[i] in g.slots;
  }

  // ----- index and scan

  /** Sorting stably and taking the first match finds what the scan for the cheapest finds, ties included. */
  lemma {:induction false} FirstOfSortedIsCheapest(models: seq<ModelDef>, clean: string)
    ensures FirstMatch(StableSort(models, ByCost()), Matching(clean)) == Cheapest(models, clean)
  {
    if models != [] {
      var n := |models| - 1;
      FirstOfSortedIsCheapest(models[..n], clean);
      SortSorts(models[..n], ByCost());
      FirstMatchAfterInsert(StableSort(models[..n], ByCost()), models[n], ByCost(), Matching(clean));
    }
  }

  lemma {:induction false} CheapestIsListed(models: seq<ModelDef>, clean: string)
    requires Cheapest(models, clean).Some?
    ensures Cheapest(models, clean).value in models
  {
    if Cheapest(models[..|models| - 1], clean).Some? {
      CheapestIsListed(models[..|models| - 1], clean);
    }
  }

  lemma CheapestIsActive(g: Registry, c: string)
    requires WellKeyed(g.slots) && Cheapest(Models(g.slots, true), c).Some?
    ensures ActiveTarget(g, Cheapest(Models(g.slots, true), c).value.id)
  {
    var models := Models(g.slots, true);
    CheapestIsListed(models, c);
    ListedIsFound(g.slots, true, Cheapest(models, c).value);
    ModelsAreSlots(g.slots, true);
  }

  lemma AgreementExactly(g: Registry, alias: string)
    requires WellKeyed(g.slots)
    ensures var c := Clean(alias);
            Indexed(g, true, c) == Resolve(g, alias) <==>
            (c in g.overrides ==> g.overrides[c] == "" || ActiveTarget(g, g.overrides[c]))
  {
    var c := Clean(alias);
    FirstOfSortedIsCheapest(Models(g.slots, true), c);
    EmptyIsNoTarget(g);
    if Cheapest(Models(g.slots, true), c).Some? {
      CheapestIsActive(g, c);
    }
  }

  /**
   * After any sequence of registrations, the active alias index and `resolveAlias` agree on an
   * alias exactly when it has no override, an empty one, or one to an active registered model.
   */
  lemma IndexAgreesWithScan(ops: seq<Op>, alias: string)
    ensures var g := Run(EMPTY, ops);
            var c := Clean(alias);
            Indexed(g, true, c) == Resolve(g, alias) <==>
            (c in g.overrides ==> g.overrides[c] == "" || ActiveTarget(g, g.overrides[c]))
  {
    RunWellKeyed(EMPTY, ops);
    AgreementExactly(Run(EMPTY, ops), alias);
  }

  /** An override to a model that is not registered: `resolveAlias` answers with it, the index does not. */
  lemma IndexDisagreesAt()
    ensures var g := Run(EMPTY, [RegisterAlias("x", "gone")]);
            Resolve(g, "x") == Some("gone") && Indexed(g, true, Clean("x")) == None
  {
    assert Clean("x") == "x" && Trim("gone") == "gone";
    var ops := [RegisterAlias("x", "gone")];
    assert ops[1..] == [];
    assert Run(EMPTY, ops) == Apply(EMPTY, ops[0]);
    assert Models([], true) == [];
  }
}
