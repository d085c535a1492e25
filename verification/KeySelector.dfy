/** Round-robin key selection with a cached, persisted and wrapping index (src/durable_objects/key_selector). */
module KeySelector {
  import opened Text

  const WRAP := 1000000

  datatype State = State(memory: map<string, nat>, disk: map<string, nat>)

  function Normalize(provider: string): string { Lower(Trim(provider)) }

  function Index(s: State, provider: string): (i: nat) {
    if provider in s.memory then s.memory[provider]
    else if provider in s.disk then s.disk[provider]
    else 0
  }

  function Next(i: nat): (j: nat) { (i + 1) % WRAP }

  /** The index after one selection, in the cache and in storage. */
  function SelectStep(s: State, provider: string): State {
    var next := Next(Index(s, provider));
    State(s.memory[provider := next], s.disk[provider := next])
  }

  function DropStep(s: State): State { s.(memory := map[]) }

  class Selector {
    var memory: map<string, nat>
    var disk: map<string, nat>

    ghost function View(): State
      reads this
    {
      State(memory, disk)
    }

    constructor (disk: map<string, nat>)
      ensures View() == State(map[], disk)
    {
      memory, this.disk := map[], disk;
    }

    method GetOrLoadIndex(provider: string) returns (i: nat)
      modifies this`memory
      ensures i == Index(old(View()), Normalize(provider))
      ensures var norm := Lower(Trim(provider));
              && i == (if norm in old(memory) then old(memory)[norm] else if norm in disk then disk[norm] else 0)
              && memory == old(memory)[norm := i] && disk == old(disk)
    {
      var norm := Normalize(provider);
      if norm in memory {
        i := memory[norm];
      } else {
        i := if norm in disk then disk[norm] else 0;
      }
      memory := memory[norm := i];
    }

    method PersistIndex(provider: string, i: nat)
      modifies this
      ensures View() == State(old(memory)[Normalize(provider) := i], old(disk)[Normalize(provider) := i])
    {
      memory := memory[Normalize(provider) := i];
      disk := disk[Normalize(provider) := i];
    }

    /** The caller has made sure that some key is healthy. */
    method SelectRoundRobin<K>(provider: string, keys: seq<K>) returns (key: K)
      requires keys != []
      modifies this
      ensures key == keys[Index(old(View()), Normalize(provider)) % |keys|]
      ensures View() == SelectStep(old(View()), Normalize(provider))
    {
      var current := GetOrLoadIndex(provider);
      key := keys[current % |keys|];
      PersistIndex(provider, (current + 1) % WRAP);
    }

    method ForgetIndices()
      modifies this`memory
      ensures View() == DropStep(old(View()))
      ensures memory == map[] && disk == old(disk)
    {
      memory := map[];
    }
  }

  // ----- runs

  /** Selections for any provider, and losses of the cached index. */
  datatype Op = Select(provider: string) | Drop

  function Apply(s: State, op: Op): State {
    if op.Drop? then DropStep(s) else SelectStep(s, Normalize(op.provider))
  }

  /** Whether an operation is a selection for a provider, whose name is trimmed and in small letters. */
  predicate SelectsFor(op: Op, provider: string) { op.Select? && Lower(Trim(op.provider)) == provider }

  /** The keys one provider's selections of a run return, from a constant candidate list. */
  function Selected<K>(s: State, ops: seq<Op>, provider: string, keys: seq<K>): (r: seq<K>)
    requires keys != []
    decreases |ops|
  {
    if ops == [] then []
    else
      (if SelectsFor(ops[0], provider) then [keys[Index(s, provider) % |keys|]] else [])
      + Selected(Apply(s, ops[0]), ops[1..], provider, keys)
  }

  function Selections(ops: seq<Op>, provider: string): (n: nat) {
    if ops == [] then 0
    else (if SelectsFor(ops[0], provider) then 1 else 0) + Selections(ops[1..], provider)
  }

  /** Cached and stored index agree. */
  predicate InSync(s: State, provider: string) {
    provider in s.memory ==> provider in s.disk && s.disk[provider] == s.memory[provider]
  }

  /** k selections in a row, starting from index i. */
  function Picks(i: nat, k: nat, n: nat): (r: seq<nat>)
    requires n > 0
    ensures |r| == k && forall p | p in r :: p < n
    decreases k
  {
    if k == 0 then [] else [i % n] + Picks(Next(i), k - 1, n)
  }

  /** How often the stored index wraps in k selections from index i. */
  function Wraps(i: nat, k: nat): (w: nat)
    decreases k
  {
    if k == 0 then 0 else (if Next(i) == i + 1 then 0 else 1) + Wraps(Next(i), k - 1)
  }

  function KeysAt<K>(keys: seq<K>, picks: seq<nat>): seq<K>
    requires forall p | p in picks :: p < |keys|
  {
    seq(|picks|, j requires 0 <= j < |picks| => assert picks[j] in picks; keys[picks[j]])
  }

  /** Losing the cached index, and selections for other providers, leave no trace. */
  lemma {:induction false} SelectedIsPicks<K>(s: State, ops: seq<Op>, provider: string, keys: seq<K>)
    requires keys != [] && InSync(s, provider)
    ensures Selected(s, ops, provider, keys)
            == KeysAt(keys, Picks(Index(s, provider), Selections(ops, provider), |keys|))
    decreases |ops|
  {
    if ops != [] {
      var s' := Apply(s, ops[0]);
      SelectedIsPicks(s', ops[1..], provider, keys);
      if SelectsFor(ops[0], provider) {
        var picks := Picks(Index(s, provider), Selections(ops, provider), |keys|);
        assert picks[1..] == Picks(Index(s', provider), Selections(ops[1..], provider), |keys|);
      }
    }
  }

  lemma WrapOnce(a: nat, b: nat)
    ensures (a % 1000000 + b) % 1000000 == (a + b) % 1000000
  {
  }

  /** The j-th of the selections in a row is at the start index plus j, wrapped at a million. */
  lemma {:induction false} PicksAre(i: nat, k: nat, n: nat, j: nat)
    requires n > 0 && j < k
    ensures Picks(i, k, n)[j] == if j == 0 then i % n else (i + j) % 1000000 % n
    decreases k
  {
    if j > 0 {
      PicksAre(Next(i), k - 1, n, j - 1);
      WrapOnce(i + 1, j - 1);
    }
  }

  /**
   * The j-th selection for a provider, however its name is written, takes the key at the start index
   * plus j, wrapped at a million and at the length of the list.
   */
  lemma SelectedByNumber<K>(s: State, ops: seq<Op>, provider: string, keys: seq<K>, j: nat)
    requires keys != [] && InSync(s, provider) && j < Selections(ops, provider)
    ensures |Selected(s, ops, provider, keys)| == Selections(ops, provider)
    ensures var stored := if provider in s.disk then s.disk[provider] else 0;
            var i := if provider in s.memory then s.memory[provider] else stored;
            Selected(s, ops, provider, keys)[j] == keys[(if j == 0 then i else (i + j) % 1000000) % |keys|]
  {
    SelectedIsPicks(s, ops, provider, keys);
    PicksAre(Index(s, provider), Selections(ops, provider), |keys|, j);
  }

  function Times<T(==)>(xs: seq<T>, x: T): (n: nat) {
    if xs == [] then 0 else (if xs[0] == x then 1 else 0) + Times(xs[1..], x)
  }

  predicate Distinct<K(==)>(keys: seq<K>) {
    forall i, j | 0 <= i < j < |keys| :: keys[i] != keys[j]
  }

  lemma {:induction false} TimesOfKey<K>(keys: seq<K>, picks: seq<nat>, r: nat)
    requires Distinct(keys) && r < |keys| && forall p | p in picks :: p < |keys|
    ensures Times(KeysAt(keys, picks), keys[r]) == Times(picks, r)
    decreases |picks|
  {
    if picks != [] {
      assert picks[0] in picks;
      assert forall p | p in picks[1..] :: p in picks;
      TimesOfKey(keys, picks[1..], r);
      assert KeysAt(keys, picks)[1..] == KeysAt(keys, picks[1..]);
      assert keys[picks[0]] == keys[r] <==> picks[0] == r;
    }
  }

  // ----- fairness

  /** How many selections ahead position r lies when the turn is at position p. */
  function Ahead(p: nat, r: nat, n: nat): (d: nat)
    requires p < n && r < n
  {
    if r >= p then r - p else r + n - p
  }

  lemma NextResidue(i: nat, n: nat)
    requires n > 0
    ensures (i + 1) % n == if i % n + 1 == n then 0 else i % n + 1
  {
    var q, m := i / n, i % n;
    assert i == q * n + m;
    if m + 1 == n {
      assert i + 1 == (q + 1) * n;
      ResidueOf(q + 1, 0, n);
    } else {
      ResidueOf(q, m + 1, n);
    }
  }

  lemma ResidueOf(q: nat, m: nat, n: nat)
    requires m < n
    ensures (q * n + m) % n == m
  {
    var i := q * n + m;
    var d := i / n - q;
    assert i == i / n * n + i % n;
    assert d * n == m - i % n;
  }

  /** One position is never chosen more often than another by more than the wraps, plus one if its turn comes first. */
  lemma {:induction false} LeadIsBounded(i: nat, k: nat, n: nat, r: nat, q: nat)
    requires n > 0 && r < n && q < n && r != q
    ensures Times(Picks(i, k, n), r) - Times(Picks(i, k, n), q)
            <= Wraps(i, k) + (if Ahead(i % n, r, n) < Ahead(i % n, q, n) then 1 else 0)
    decreases k
  {
    if k > 0 {
      LeadIsBounded(Next(i), k - 1, n, r, q);
      assert Picks(i, k, n)[1..] == Picks(Next(i), k - 1, n);
      NextResidue(i, n);
    }
  }

  predicate Divides(n: nat, m: nat)
    requires n > 0
  {
    m % n == 0
  }

  lemma WrapKeepsResidue(i: nat, n: nat)
    requires n > 0 && Divides(n, WRAP)
    ensures Next(i) % n == (i + 1) % n
  {
    var c := WRAP / n;
    assert WRAP == c * n;
    var j := i + 1;
    var a, b := j / WRAP, j % WRAP;
    assert j == a * WRAP + b;
    assert a * WRAP == a * c * n by { assert a * (c * n) == a * c * n; }
    var q, m := b / n, b % n;
    assert b == q * n + m;
    assert j == (a * c + q) * n + m;
    ResidueOf(a * c + q, m, n);
  }

  /** Where the list length divides the wrap, wrapping costs nothing. */
  lemma {:induction false} LeadIsOne(i: nat, k: nat, n: nat, r: nat, q: nat)
    requires n > 0 && r < n && q < n && r != q && Divides(n, WRAP)
    ensures Times(Picks(i, k, n), r) - Times(Picks(i, k, n), q)
            <= (if Ahead(i % n, r, n) < Ahead(i % n, q, n) then 1 else 0)
    decreases k
  {
    if k > 0 {
      LeadIsOne(Next(i), k - 1, n, r, q);
      assert Picks(i, k, n)[1..] == Picks(Next(i), k - 1, n);
      NextResidue(i, n);
      WrapKeepsResidue(i, n);
    }
  }

  /**
   * Round-robin fairness: over any run, with losses of the cached index and selections for other
   * providers in between, any two keys of the constant candidate list are selected equally often
   * up to the number of wraps plus one, and up to one when the list length divides 1,000,000.
   */
  lemma RoundRobinIsFair<K>(s: State, ops: seq<Op>, provider: string, keys: seq<K>, r: nat, q: nat)
    requires keys != [] && Distinct(keys) && InSync(s, provider) && r < |keys| && q < |keys| && r != q
    ensures var selected := Selected(s, ops, provider, keys);
            var lead := Times(selected, keys[r]) - Times(selected, keys[q]);
            var wraps := Wraps(Index(s, provider), Selections(ops, provider));
            && -(wraps + 1) <= lead <= wraps + 1
            && (Divides(|keys|, WRAP) ==> -1 <= lead <= 1)
  {
    var i, k, n := Index(s, provider), Selections(ops, provider), |keys|;
    var picks := Picks(i, k, n);
    SelectedIsPicks(s, ops, provider, keys);
    TimesOfKey(keys, picks, r);
    TimesOfKey(keys, picks, q);
    LeadIsBounded(i, k, n, r, q);
    LeadIsBounded(i, k, n, q, r);
    if Divides(n, WRAP) {
      LeadIsOne(i, k, n, r, q);
      LeadIsOne(i, k, n, q, r);
    }
  }
}
