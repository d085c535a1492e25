/** Failover across the candidates of a request (src/router/cascade/fallback.ts). */
module Failover {
  import opened ModelRegistry

  /** What happens to one attempt. Key acquisition and the upstream call are outside the model. */
  datatype Outcome =
    | AbortedBefore
    | KeyFailed(error: string)
    | CallAborted
    | CallFailed(error: string)
    | Answered(content: string)

  datatype Attempt = Attempt(provider: string, modelId: string, error: string)

  datatype Route =
    | Routed(model: ModelDef, content: string, attempts: seq<Attempt>)
    | Cancelled
    | Exhausted(attempts: seq<Attempt>)

  /** The end of `slice(0, end)` on a list of length n; a negative end counts from the back. */
  function SliceEnd(n: nat, end: int): (k: nat)
    ensures k <= n
  {
    if end < 0 then (if n + end < 0 then 0 else n + end)
    else if end < n then end else n
  }

  /** The candidates that are tried at all. */
  function Tried(candidates: seq<ModelDef>, maxFallbacks: int): seq<ModelDef> {
    candidates[..SliceEnd(|candidates|, 1 + maxFallbacks)]
  }

  predicate Fails(o: Outcome) { o.KeyFailed? || o.CallFailed? }

  function Note(m: ModelDef, o: Outcome): Attempt
    requires Fails(o)
  {
    Attempt(m.provider, m.id, if o.KeyFailed? then "Key acquisition failed: " + o.error else o.error)
  }

  /** The oracle: the outcome of trying the i-th candidate. */
  type World = nat -> Outcome

  /** How many leading attempts fail before one does not, or all have failed. */
  function Failures(world: World, n: nat): (k: nat)
    ensures k <= n && (forall i | 0 <= i < k :: Fails(world(i))) && (k < n ==> !Fails(world(k)))
  {
    if n == 0 then 0
    else
      var k := Failures(world, n - 1);
      if k < n - 1 || !Fails(world(n - 1)) then k else n
  }

  /** The notes on the first k attempts, all of which failed. */
  function Notes(tried: seq<ModelDef>, world: World, k: nat): (attempts: seq<Attempt>)
    requires k <= |tried| && forall i | 0 <= i < k :: Fails(world(i))
    ensures |attempts| == k
  {
    if k == 0 then [] else Notes(tried, world, k - 1) + [Note(tried[k - 1], world(k - 1))]
  }

  lemma NotesSnoc(tried: seq<ModelDef>, world: World, k: nat)
    requires k < |tried| && Fails(world(k)) && forall i | 0 <= i < k :: Fails(world(i))
    ensures Notes(tried, world, k + 1) == Notes(tried, world, k) + [Note(tried[k], world(k))]
  {
  }

  lemma {:induction false} NotesAt(tried: seq<ModelDef>, world: World, k: nat)
    requires k <= |tried| && forall i | 0 <= i < k :: Fails(world(i))
    ensures NotesOf(Notes(tried, world, k), tried, world, k)
  {
    if k > 0 {
      var before, after := Notes(tried, world, k - 1), Notes(tried, world, k);
      NotesAt(tried, world, k - 1);
      NotesSnoc(tried, world, k - 1);
      OneMoreNote(before, after, tried, world, k);
    }
  }

  lemma OneMoreNote(before: seq<Attempt>, after: seq<Attempt>, tried: seq<ModelDef>, world: World, k: nat)
    requires 0 < k <= |tried| && Fails(world(k - 1)) && after == before + [Note(tried[k - 1], world(k - 1))]
    requires NotesOf(before, tried, world, k - 1)
    ensures NotesOf(after, tried, world, k)
  {
    NoteTells(tried[k - 1], world(k - 1));
    assert forall i | 0 <= i < k - 1 :: after[i] == before[i];
  }

  /** The route: the first attempt that does not fail decides, and the earlier failures are noted in order. */
  function Routing(candidates: seq<ModelDef>, maxFallbacks: int, world: World): (route: Route) {
    var tried := Tried(candidates, maxFallbacks);
    var k := Failures(world, |tried|);
    var attempts := Notes(tried, world, k);
    if k == |tried| then Exhausted(attempts)
    else if world(k).Answered? then Routed(tried[k], world(k).content, attempts)
    else Cancelled
  }

  method ExecuteCascadeRouting(candidates: seq<ModelDef>, maxFallbacks: int, world: World) returns (route: Route)
    ensures route == Routing(candidates, maxFallbacks, world)
  {
    var tried := candidates[..SliceEnd(|candidates|, 1 + maxFallbacks)];
    var attempts: seq<Attempt> := [];
    for i := 0 to |tried|
      invariant forall j | 0 <= j < i :: Fails(world(j))
      invariant attempts == Notes(tried, world, i)
    {
      FailuresUnique(world, |tried|, i);
      if Fails(world(i)) {
        NotesSnoc(tried, world, i);
      }
      match world(i) {
        case AbortedBefore => return Cancelled;
        case KeyFailed(error) =>
          attempts := attempts + [Attempt(tried[i].provider, tried[i].id, "Key acquisition failed: " + error)];
        case CallAborted => return Cancelled;
        case CallFailed(error) => attempts := attempts + [Attempt(tried[i].provider, tried[i].id, error)];
        case Answered(content) => return Routed(tried[i], content, attempts);
      }
    }
    FailuresUnique(world, |tried|, |tried|);
    return Exhausted(attempts);
  }

  lemma FailuresUnique(world: World, n: nat, k: nat)
    requires k <= n && forall i | 0 <= i < k :: Fails(world(i))
    ensures (k == n || !Fails(world(k))) ==> Failures(world, n) == k
  {
  }

  /** Nothing among the first n attempts is aborted. */
  predicate Unaborted(world: World, n: nat) {
    forall i | 0 <= i < n :: !world(i).AbortedBefore? && !world(i).CallAborted?
  }

  /** Attempts list exactly the first k failures, in order. */
  predicate NotesOf(attempts: seq<Attempt>, tried: seq<ModelDef>, world: World, k: nat) {
    && |attempts| == k <= |tried|
    && forall i | 0 <= i < k :: NotedAs(attempts[i], tried[i], world(i))
  }

  /** The note names the candidate by provider and id, and tells what failed. */
  predicate NotedAs(a: Attempt, m: ModelDef, o: Outcome) {
    && a.provider == m.provider && a.modelId == m.id && (o.KeyFailed? || o.CallFailed?)
    && (o.KeyFailed? ==> a.error == "Key acquisition failed: " + o.error)
    && (o.CallFailed? ==> a.error == o.error)
  }

  lemma NoteTells(m: ModelDef, o: Outcome)
    requires Fails(o)
    ensures NotedAs(Note(m, o), m, o)
  {
  }

  /**
   * Absent abort, the route is the first of the leading 1 + maxFallbacks candidates that answers,
   * with exactly the earlier failures noted; it is exhausted only when none of them answers.
   */
  lemma FirstSuccessWins(candidates: seq<ModelDef>, maxFallbacks: nat, world: World, k: nat)
    requires k < |candidates| && k <= maxFallbacks && world(k).Answered?
    requires forall i | 0 <= i < k :: world(i).KeyFailed? || world(i).CallFailed?
    ensures var route := Routing(candidates, maxFallbacks, world);
            && route.Routed? && route.model == candidates[k] && route.content == world(k).content
            && NotesOf(route.attempts, candidates, world, k)
  {
    var tried := Tried(candidates, maxFallbacks);
    FirstAnswer(candidates, maxFallbacks, world, k);
    NotesAt(tried, world, k);
    NotesOfAll(Notes(tried, world, k), tried, candidates, world, k);
  }

  lemma FirstAnswer(candidates: seq<ModelDef>, maxFallbacks: nat, world: World, k: nat)
    requires k < |candidates| && k <= maxFallbacks && world(k).Answered?
    requires forall i | 0 <= i < k :: Fails(world(i))
    ensures var tried := Tried(candidates, maxFallbacks);
            && k < |tried| && tried == candidates[..|tried|]
            && Routing(candidates, maxFallbacks, world) == Routed(tried[k], world(k).content, Notes(tried, world, k))
  {
    FailuresUnique(world, |Tried(candidates, maxFallbacks)|, k);
  }

  lemma NotesOfAll(attempts: seq<Attempt>, tried: seq<ModelDef>, candidates: seq<ModelDef>, world: World, k: nat)
    requires NotesOf(attempts, tried, world, k) && tried <= candidates
    ensures NotesOf(attempts, candidates, world, k)
  {
  }

  /** If the first candidate that does not fail is aborted, before its call or in it, so is the routing. */
  lemma AbortCancels(candidates: seq<ModelDef>, maxFallbacks: nat, world: World, k: nat)
    requires k < |candidates| && k <= maxFallbacks && (world(k).AbortedBefore? || world(k).CallAborted?)
    requires forall i | 0 <= i < k :: world(i).KeyFailed? || world(i).CallFailed?
    ensures Routing(candidates, maxFallbacks, world) == Cancelled
  {
    FailuresUnique(world, |Tried(candidates, maxFallbacks)|, k);
  }

  lemma ExhaustedWhenNoneAnswers(candidates: seq<ModelDef>, maxFallbacks: nat, world: World)
    requires Unaborted(world, |Tried(candidates, maxFallbacks)|)
    ensures var route, tried := Routing(candidates, maxFallbacks, world), Tried(candidates, maxFallbacks);
            && (route.Exhausted? <==> forall i | 0 <= i < |tried| :: !world(i).Answered?)
            && (route.Exhausted? ==> NotesOf(route.attempts, tried, world, |tried|))
            && (!route.Exhausted? ==> route.Routed?)
  {
    var tried := Tried(candidates, maxFallbacks);
    NotesAt(tried, world, Failures(world, |tried|));
  }

  /**
   * A budget of maxFallbacks bounds the attempts, except for budgets below -1: those keep
   * candidates from the front up to a distance from the back, as `slice` does.
   */
  lemma BudgetBoundsAttempts(candidates: seq<ModelDef>, maxFallbacks: int)
    ensures |Tried(candidates, maxFallbacks)| <= (if maxFallbacks < -1 then 0 else 1 + maxFallbacks)
            <==> (maxFallbacks >= -1 || |candidates| + 1 + maxFallbacks <= 0)
  {
  }

  /** With a budget of -2 and three candidates two are tried, where none should be. */
  lemma BudgetFailsAt(a: ModelDef, b: ModelDef, c: ModelDef)
    ensures Tried([a, b, c], -2) == [a, b]
  {
  }
}
