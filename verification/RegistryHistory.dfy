/** What a registry holds and answers, told from the calls made (src/router/registry/registry.ts:87-250, 339-369). */
module RegistryHistory {
  import opened Text
  import opened Sorting
  import opened ModelRegistry

  /** Names are compared without white space around them and without letter case. */
  function Plain(name: string): string { Lower(Trim(name)) }

  lemma PlainIsClean(name: string)
    ensures Clean(name) == Plain(name)
    ensures Plain(name) == "" <==> Trim(name) == ""
  {
    CleanOfTrimmed(name);
    CleanEmpty(name);
  }

  lemma {:induction false} RunSnoc(g: Registry, ops: seq<Op>)
    requires ops != []
    ensures Run(g, ops) == Apply(Run(g, ops[..|ops| - 1]), ops[|ops| - 1])
    decreases |ops|
  {
    var n := |ops| - 1;
    if n > 0 {
      RunSnoc(Apply(g, ops[0]), ops[1..]);
      assert ops[1..][..n - 1] == ops[..n][1..];
    }
  }

  // ----- models

  /** The model last registered under a name and not unregistered since. */
  function Registered(ops: seq<Op>, name: string): (m: Option<ModelDef>) {
    if ops == [] then None
    else
      var before := Registered(ops[..|ops| - 1], name);
      match ops[|ops| - 1]
      case Register(m) => if Trim(m.id) != "" && Plain(m.id) == name then Some(m) else before
      case Unregister(id) => if Plain(id) == name then None else before
      case _ => before
  }

  /** A stored model is the one that was registered, its aliases trimmed and the empty ones left out. */
  ghost predicate StoredFrom(stored: ModelDef, m: ModelDef) {
    && stored == m.(aliases := stored.aliases)
    && (forall i | 0 <= i < |stored.aliases| :: stored.aliases[i] != "" && Trim(stored.aliases[i]) == stored.aliases[i])
    && forall alias :: alias in stored.aliases <==> alias != "" && alias in Trimmed(m.aliases)
  }

  function Trimmed(aliases: seq<string>): (r: seq<string>) {
    seq(|aliases|, i requires 0 <= i < |aliases| => Trim(aliases[i]))
  }

  lemma {:induction false} NormalizedMembers(aliases: seq<string>)
    ensures forall alias :: alias in Normalized(aliases) <==> alias != "" && alias in Trimmed(aliases)
    ensures forall i | 0 <= i < |Normalized(aliases)| :: Trim(Normalized(aliases)[i]) == Normalized(aliases)[i]
  {
    if aliases != [] {
      NormalizedMembers(aliases[1..]);
      TrimTwice(aliases[0]);
      assert Trimmed(aliases) == [Trim(aliases[0])] + Trimmed(aliases[1..]);
    }
  }

  lemma NormalizedIsStored(m: ModelDef)
    ensures StoredFrom(m.(aliases := Normalized(m.aliases)), m)
  {
    NormalizedMembers(m.aliases);
    assert forall i | 0 <= i < |Normalized(m.aliases)| :: Normalized(m.aliases)[i] in Normalized(m.aliases);
  }

  /** Under each name lies what was last registered there. */
  lemma {:induction false} FoundIsRegistered(ops: seq<Op>, name: string)
    ensures var found, m := Find(Run(EMPTY, ops).slots, name), Registered(ops, name);
            (found.Some? <==> m.Some?) && (m.Some? ==> StoredFrom(found.value, m.value))
  {
    if ops != [] {
      var n := |ops| - 1;
      var g := Run(EMPTY, ops[..n]);
      RunSnoc(EMPTY, ops);
      FoundIsRegistered(ops[..n], name);
      RunWellKeyed(EMPTY, ops[..n]);
      match ops[n]
      case Register(m) =>
        PlainIsClean(m.id);
        PutIsMapSet(g.slots, Clean(m.id), m.(aliases := Normalized(m.aliases)), name);
        NormalizedIsStored(m);
      case Unregister(id) =>
        PlainIsClean(id);
        DeleteIsMapDelete(g.slots, Clean(id), name);
      case _ =>
    }
  }

  // ----- overrides

  /** The target last given to an alias, unless the alias was removed or its target unregistered since. */
  function Override(ops: seq<Op>, alias: string): (id: Option<string>) {
    if ops == [] then None
    else
      var before := Override(ops[..|ops| - 1], alias);
      match ops[|ops| - 1]
      case RegisterAlias(a, id) => if Plain(a) == alias && alias != "" then Some(Trim(id)) else before
      case UnregisterAlias(a) => if Plain(a) == alias then None else before
      case Unregister(id) => if before.Some? && Plain(before.value) == Plain(id) then None else before
      case Register(_) => before
  }

  lemma {:induction false} OverrideIsLastGiven(ops: seq<Op>, alias: string)
    ensures var g := Run(EMPTY, ops);
            && (alias in g.overrides <==> Override(ops, alias).Some?)
            && (alias in g.overrides ==> g.overrides[alias] == Override(ops, alias).value)
  {
    if ops != [] {
      var n := |ops| - 1;
      RunSnoc(EMPTY, ops);
      OverrideIsLastGiven(ops[..n], alias);
      match ops[n]
      case RegisterAlias(a, id) => PlainIsClean(a);
      case UnregisterAlias(a) => PlainIsClean(a);
      case Unregister(id) =>
        PlainIsClean(id);
        if Override(ops[..n], alias).Some? { PlainIsClean(Override(ops[..n], alias).value); }
      case Register(_) =>
    }
  }

  // ----- aliases

  predicate Answers(m: ModelDef, alias: string) { exists i | 0 <= i < |m.aliases| :: Plain(m.aliases[i]) == alias }

  lemma AnswersIsHasAlias(m: ModelDef, alias: string)
    ensures HasAlias(m, alias) <==> Answers(m, alias)
  {
    forall i | 0 <= i < |m.aliases|
      ensures Clean(m.aliases[i]) == Plain(m.aliases[i])
    {
      PlainIsClean(m.aliases[i]);
    }
  }

  /** The i-th model is the cheapest with the alias, and the first of its price. */
  predicate CheapestAt(models: seq<ModelDef>, alias: string, i: int) {
    && 0 <= i < |models| && Answers(models[i], alias)
    && (forall j | 0 <= j < |models| && Answers(models[j], alias) :: models[i].inputCost <= models[j].inputCost)
    && (forall j | 0 <= j < i && Answers(models[j], alias) :: models[i].inputCost < models[j].inputCost)
  }

  lemma {:induction false} CheapestMeans(models: seq<ModelDef>, alias: string) returns (i: int)
    ensures Cheapest(models, alias).None? ==> forall j | 0 <= j < |models| :: !Answers(models[j], alias)
    ensures Cheapest(models, alias).Some? ==> CheapestAt(models, alias, i) && models[i] == Cheapest(models, alias).value
  {
    i := -1;
    if models != [] {
      var n := |models| - 1;
      AnswersIsHasAlias(models[n], alias);
      i := CheapestMeans(models[..n], alias);
      assert forall j | 0 <= j < n :: models[j] == models[..n][j];
      if Cheapest(models, alias) != Cheapest(models[..n], alias) {
        i := n;
      }
    }
  }

  function IfActive(): ModelDef -> bool { (m: ModelDef) => m.active }

  /** All models are those of the slots, in their order. */
  lemma {:induction false} AllModels(slots: seq<Slot>)
    ensures |Models(slots, false)| == |slots|
    ensures forall i | 0 <= i < |slots| :: Models(slots, false)[i] == slots[i].model
  {
    if slots != [] {
      AllModels(slots[..|slots| - 1]);
    }
  }

  /** The active models are all models with the others left out. */
  lemma {:induction false} ActiveModels(slots: seq<Slot>)
    ensures Models(slots, true) == Filtered(Models(slots, false), IfActive())
  {
    if slots != [] {
      var n := |slots| - 1;
      ActiveModels(slots[..n]);
      FilteredSnoc(Models(slots[..n], false), slots[n].model, IfActive());
      assert Models(slots, false) == Models(slots[..n], false) + [slots[n].model];
      assert Models(slots[..n], true) + [] == Models(slots[..n], true);
    }
  }

  /** The id is that of the cheapest model with the alias, of equally cheap ones the first; none if none has it. */
  predicate NamesCheapest(id: Option<string>, models: seq<ModelDef>, alias: string) {
    if id.None? then forall j | 0 <= j < |models| :: !Answers(models[j], alias)
    else exists i | 0 <= i < |models| :: CheapestAt(models, alias, i) && models[i].id == id.value
  }

  lemma CheapestIsNamed(models: seq<ModelDef>, alias: string)
    ensures NamesCheapest(IdOf(Cheapest(models, alias)), models, alias)
  {
    var i := CheapestMeans(models, alias);
  }

  /** An alias stands for its override if that is not empty, else for the cheapest active model that has it. */
  lemma AliasStandsFor(ops: seq<Op>, alias: string)
    ensures var g, over := Run(EMPTY, ops), Override(ops, Plain(alias));
            if over.Some? && over.value != "" then Resolve(g, alias) == over
            else NamesCheapest(Resolve(g, alias), Models(g.slots, true), Plain(alias))
  {
    PlainIsClean(alias);
    OverrideIsLastGiven(ops, Plain(alias));
    CheapestIsNamed(Models(Run(EMPTY, ops).slots, true), Plain(alias));
  }

  /**
   * The alias map holds an alias for its override, if any model may stand for it or the override is
   * to an active registered model, else for the cheapest of the models it is made from.
   */
  lemma IndexStandsFor(ops: seq<Op>, onlyActive: bool, alias: string)
    ensures var g, over := Run(EMPTY, ops), Override(ops, alias);
            var indexed := Indexed(g, onlyActive, alias);
            if over.Some? && (!onlyActive || ActiveUnder(ops, over.value)) then indexed == over
            else NamesCheapest(indexed, Models(g.slots, onlyActive), alias)
  {
    var g := Run(EMPTY, ops);
    OverrideIsLastGiven(ops, alias);
    if Override(ops, alias).Some? {
      var id := Override(ops, alias).value;
      PlainIsClean(id);
      FoundIsRegistered(ops, Plain(id));
    }
    FirstOfSortedIsCheapest(Models(g.slots, onlyActive), alias);
    CheapestIsNamed(Models(g.slots, onlyActive), alias);
  }

  /** An active model is registered under the name. */
  predicate ActiveUnder(ops: seq<Op>, id: string) {
    var m := Registered(ops, Plain(id));
    m.Some? && m.value.active
  }
}
