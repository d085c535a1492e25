/** Token pricing in whole microdollars (src/router/registry/registry.ts:500-564). */
module Cost {

  datatype Usage = Usage(prompt: int, completion: int, reasoning: int, cached: int)

  datatype Rates = Rates(input: int, output: int, cacheRead: int)

  datatype Breakdown = Breakdown(prompt: int, completion: int, reasoning: int, cache: int, total: int)

  function Clamp(n: int): (r: nat) { if n < 0 then 0 else n }

  /** Integer division of the source, towards zero. */
  function PerMillion(n: int): (q: int) { if n >= 0 then n / 1_000_000 else -((-n) / 1_000_000) }

  /** The price of some tokens at a rate per million. */
  function Part(tokens: nat, rate: int): (c: int) { PerMillion(tokens * rate) }

  function CostOf(rates: Rates, prompt: nat, output: nat, cached: nat): (c: int) {
    Part(prompt, rates.input) + Part(output, rates.output) + Part(cached, rates.cacheRead)
  }

  function Cost(rates: Rates, u: Usage): (c: int) {
    CostOf(rates, Clamp(u.prompt), Clamp(u.completion) + Clamp(u.reasoning), Clamp(u.cached))
  }

  function CostBreakdown(rates: Rates, u: Usage): (b: Breakdown) {
    var prompt, cache := Part(Clamp(u.prompt), rates.input), Part(Clamp(u.cached), rates.cacheRead);
    Breakdown(prompt,
              Part(Clamp(u.completion), rates.output),
              Part(Clamp(u.reasoning), rates.output),
              cache,
              prompt + Part(Clamp(u.completion) + Clamp(u.reasoning), rates.output) + cache)
  }

  predicate Priced(rates: Rates) { rates.input >= 0 && rates.output >= 0 && rates.cacheRead >= 0 }

  /** Tokens that are billed: none for a negative number. */
  function Billed(n: int): nat { if n > 0 then n else 0 }

  /** The cost before rounding, in millionths of a microdollar. */
  function Exact(rates: Rates, u: Usage): int {
    Billed(u.prompt) * rates.input + (Billed(u.completion) + Billed(u.reasoning)) * rates.output
    + Billed(u.cached) * rates.cacheRead
  }

  /** A part is the exact price of its tokens, cut to whole microdollars. */
  predicate Cut(part: int, tokens: nat, rate: int) { 0 <= tokens * rate - 1_000_000 * part < 1_000_000 }

  /** Each part of the breakdown is the price of its own tokens at its own rate. */
  lemma BreakdownParts(rates: Rates, u: Usage)
    requires Priced(rates)
    ensures var b := CostBreakdown(rates, u);
            && Cut(b.prompt, Billed(u.prompt), rates.input)
            && Cut(b.completion, Billed(u.completion), rates.output)
            && Cut(b.reasoning, Billed(u.reasoning), rates.output)
            && Cut(b.cache, Billed(u.cached), rates.cacheRead)
  {
    PartBounds(Clamp(u.prompt), rates.input);
    PartBounds(Clamp(u.completion), rates.output);
    PartBounds(Clamp(u.reasoning), rates.output);
    PartBounds(Clamp(u.cached), rates.cacheRead);
  }

  /** A negative rate is a credit of the same size. */
  lemma NegativeRate(tokens: nat, rate: int)
    ensures Part(tokens, -rate) == -Part(tokens, rate)
  {
    assert tokens * -rate == -(tokens * rate);
  }

  lemma PartBounds(tokens: nat, rate: int)
    requires rate >= 0
    ensures 0 <= tokens * rate - 1_000_000 * Part(tokens, rate) < 1_000_000
  {
    assert tokens * rate >= 0;
  }

  lemma PartAdds(tokens: nat, more: nat, rate: int)
    requires rate >= 0
    ensures var apart := Part(tokens, rate) + Part(more, rate);
            apart <= Part(tokens + more, rate) <= apart + 1
  {
    assert tokens * rate >= 0 && more * rate >= 0;
    assert (tokens + more) * rate == tokens * rate + more * rate;
  }

  /**
   * The breakdown's total is the cost; its completion and reasoning parts fall short of the
   * combined output cost by at most one microdollar; and the total falls short of the exact
   * cost by less than three.
   */
  lemma BreakdownAddsUp(rates: Rates, u: Usage)
    requires Priced(rates)
    ensures var b := CostBreakdown(rates, u);
            && b.total == Cost(rates, u)
            && 0 <= b.total - (b.prompt + b.completion + b.reasoning + b.cache) <= 1
            && 0 <= Exact(rates, u) - 1_000_000 * b.total < 3 * 1_000_000
  {
    PartAdds(Clamp(u.completion), Clamp(u.reasoning), rates.output);
    PartBounds(Clamp(u.prompt), rates.input);
    PartBounds(Clamp(u.completion) + Clamp(u.reasoning), rates.output);
    PartBounds(Clamp(u.cached), rates.cacheRead);
  }

  /** The billed tokens of several usages together. */
  function Together(us: seq<Usage>): (u: Usage)
    ensures u.prompt >= 0 && u.completion >= 0 && u.reasoning >= 0 && u.cached >= 0
  {
    if us == [] then Usage(0, 0, 0, 0)
    else
      var rest, u := Together(us[..|us| - 1]), us[|us| - 1];
      Usage(rest.prompt + Clamp(u.prompt), rest.completion + Clamp(u.completion),
            rest.reasoning + Clamp(u.reasoning), rest.cached + Clamp(u.cached))
  }

  function SumOfCosts(rates: Rates, us: seq<Usage>): (c: int) {
    if us == [] then 0 else SumOfCosts(rates, us[..|us| - 1]) + Cost(rates, us[|us| - 1])
  }

  /** One more usage on top of the tokens so far. */
  lemma OneMore(rates: Rates, a: Usage, u: Usage, all: Usage)
    requires Priced(rates) && a.prompt >= 0 && a.completion >= 0 && a.reasoning >= 0 && a.cached >= 0
    requires all == Usage(a.prompt + Clamp(u.prompt), a.completion + Clamp(u.completion),
                          a.reasoning + Clamp(u.reasoning), a.cached + Clamp(u.cached))
    ensures Cost(rates, a) + Cost(rates, u) <= Cost(rates, all) <= Cost(rates, a) + Cost(rates, u) + 3
  {
    var output, more := a.completion + a.reasoning, Clamp(u.completion) + Clamp(u.reasoning);
    PartAdds(a.prompt, Clamp(u.prompt), rates.input);
    PartAdds(output, more, rates.output);
    PartAdds(a.cached, Clamp(u.cached), rates.cacheRead);
  }

  lemma CostOfOne(rates: Rates, us: seq<Usage>)
    requires |us| == 1
    ensures SumOfCosts(rates, us) == Cost(rates, us[0]) == Cost(rates, Together(us))
  {
    var u := us[0];
    assert us[..0] == [] && us[|us| - 1] == u;
    assert Together(us) == Usage(Clamp(u.prompt), Clamp(u.completion), Clamp(u.reasoning), Clamp(u.cached));
  }

  /**
   * For any list of k usages, the sum of the costs is at most the cost of all tokens together,
   * which is at most that sum plus 3(k - 1).
   */
  lemma {:induction false} BatchingBounds(rates: Rates, us: seq<Usage>)
    requires Priced(rates) && us != []
    ensures SumOfCosts(rates, us) <= Cost(rates, Together(us)) <= SumOfCosts(rates, us) + 3 * (|us| - 1)
  {
    var n := |us| - 1;
    if n == 0 {
      CostOfOne(rates, us);
    } else {
      BatchingBounds(rates, us[..n]);
      OneMore(rates, Together(us[..n]), us[n], Together(us));
    }
  }
}
