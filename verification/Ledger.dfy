/** Logs of who did how much when, and how the shares of all parties add up. */
module Ledger {
  import opened Windows

  datatype Item = Item(time: int, who: string, weight: int)

  const TOTAL: Lens<Item> := Lens((i: Item) => i.time, (i: Item) => i.weight)

  /** The share of one party. */
  function Of(who: string): Lens<Item> {
    Lens((i: Item) => i.time, (i: Item) => if i.who == who then i.weight else 0)
  }

  /** The share of a set of parties. */
  function Among(keys: set<string>): Lens<Item> {
    Lens((i: Item) => i.time, (i: Item) => if i.who in keys then i.weight else 0)
  }

  ghost function SumOver(keys: set<string>, f: string -> int): int {
    if keys == {} then 0
    else
      var k :| k in keys;
      f(k) + SumOver(keys - {k}, f)
  }

  lemma {:induction false} SumOverPick(keys: set<string>, f: string -> int, k: string)
    requires k in keys
    ensures SumOver(keys, f) == f(k) + SumOver(keys - {k}, f)
    decreases |keys|
  {
    var j :| j in keys && SumOver(keys, f) == f(j) + SumOver(keys - {j}, f);
    if j != k {
      SumOverPick(keys - {j}, f, k);
      assert keys - {j} - {k} == keys - {k} - {j};
      SumOverPick(keys - {k}, f, j);
    }
  }

  lemma {:induction false} SumOverSame(keys: set<string>, f: string -> int, g: string -> int)
    requires forall k | k in keys :: f(k) == g(k)
    ensures SumOver(keys, f) == SumOver(keys, g)
    decreases |keys|
  {
    if keys != {} {
      var k :| k in keys;
      SumOverPick(keys, f, k);
      SumOverPick(keys, g, k);
      SumOverSame(keys - {k}, f, g);
    }
  }

  lemma {:induction false} AmongSplit(keys: set<string>, k: string, log: seq<Item>, lo: int)
    requires k in keys
    ensures SumAfter(Among(keys), log, lo) == SumAfter(Of(k), log, lo) + SumAfter(Among(keys - {k}), log, lo)
  {
    if log != [] {
      AmongSplit(keys, k, log[..|log| - 1], lo);
    }
  }

  lemma {:induction false} AmongNobody(log: seq<Item>, lo: int)
    ensures SumAfter(Among({}), log, lo) == 0
  {
    if log != [] {
      AmongNobody(log[..|log| - 1], lo);
    }
  }

  function Share(log: seq<Item>, lo: int): string -> int {
    (k: string) => SumAfter(Of(k), log, lo)
  }

  lemma {:induction false} SharesOfSet(keys: set<string>, log: seq<Item>, lo: int)
    ensures SumOver(keys, Share(log, lo)) == SumAfter(Among(keys), log, lo)
    decreases |keys|
  {
    if keys == {} {
      AmongNobody(log, lo);
    } else {
      var k :| k in keys;
      SumOverPick(keys, Share(log, lo), k);
      AmongSplit(keys, k, log, lo);
      SharesOfSet(keys - {k}, log, lo);
    }
  }

  lemma {:induction false} OthersIdle(keys: set<string>, log: seq<Item>, lo: int)
    requires NonNegative(TOTAL, log)
    requires forall i | 0 <= i < |log| :: log[i].who !in keys ==> SumAfter(Of(log[i].who), log, lo) == 0
    ensures SumAfter(Among(keys), log, lo) == SumAfter(TOTAL, log, lo)
  {
    if log != [] {
      var n := |log| - 1;
      assert NonNegative(TOTAL, log[..n]);
      forall i | 0 <= i < n
        ensures log[..n][i].who !in keys ==> SumAfter(Of(log[..n][i].who), log[..n], lo) == 0
      {
        assert NonNegative(Of(log[i].who), log) by { ShareNonNegative(log, log[i].who); }
        SumAfterNonNegative(Of(log[i].who), log[..n], lo);
      }
      OthersIdle(keys, log[..n], lo);
      if log[n].who !in keys && log[n].time > lo {
        ShareNonNegative(log, log[n].who);
        SumAfterNonNegative(Of(log[n].who), log[..n], lo);
      }
    }
  }

  lemma ShareNonNegative(log: seq<Item>, who: string)
    requires NonNegative(TOTAL, log)
    ensures NonNegative(Of(who), log)
  {
  }

  /** Shares add up: the parties in `keys` account for the whole sum when nobody else was active. */
  lemma SharesAddUp(keys: set<string>, log: seq<Item>, lo: int)
    requires NonNegative(TOTAL, log)
    requires forall i | 0 <= i < |log| :: log[i].who !in keys ==> SumAfter(Of(log[i].who), log, lo) == 0
    ensures SumOver(keys, Share(log, lo)) == SumAfter(TOTAL, log, lo)
  {
    SharesOfSet(keys, log, lo);
    OthersIdle(keys, log, lo);
  }

  /** The shares of three different parties are no more than the whole. */
  lemma {:induction false} ThreeShares(log: seq<Item>, a: string, b: string, c: string, lo: int)
    requires NonNegative(TOTAL, log) && a != b && b != c && a != c
    ensures SumAfter(Of(a), log, lo) + SumAfter(Of(b), log, lo) + SumAfter(Of(c), log, lo) <= SumAfter(TOTAL, log, lo)
  {
    if log != [] {
      var n := |log| - 1;
      assert TOTAL.weight(log[n]) >= 0;
      ThreeShares(log[..n], a, b, c, lo);
    }
  }

  lemma {:induction false} ShareAtMostTotal(log: seq<Item>, who: string, lo: int)
    requires NonNegative(TOTAL, log)
    ensures 0 <= SumAfter(Of(who), log, lo) <= SumAfter(TOTAL, log, lo)
  {
    if log != [] {
      var n := |log| - 1;
      assert TOTAL.weight(log[n]) >= 0;
      ShareAtMostTotal(log[..n], who, lo);
    }
  }
}
