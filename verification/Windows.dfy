/**
 * Sliding windows over a log of timed entries: the lemmas that the rate limiter, the tenant
 * quota, the demo sandbox and the pool coordinator share.
 */
module Windows {

  /** How to read the time and the weight of an entry. A weight of 0 leaves an entry out of a sum. */
  datatype Lens<!T> = Lens(time: T -> int, weight: T -> int)

  /** Total weight of the entries later than `lo`. */
  function SumAfter<T>(l: Lens<T>, log: seq<T>, lo: int): (r: int) {
    if log == [] then 0
    else
      var e := log[|log| - 1];
      SumAfter(l, log[..|log| - 1], lo) + (if l.time(e) > lo then l.weight(e) else 0)
  }

  /** Total weight of the entries in the half-open interval (lo, hi]. */
  function SumWithin<T>(l: Lens<T>, log: seq<T>, lo: int, hi: int): (r: int) {
    if log == [] then 0
    else
      var e := log[|log| - 1];
      SumWithin(l, log[..|log| - 1], lo, hi) + (if lo < l.time(e) <= hi then l.weight(e) else 0)
  }

  function SumAll<T>(l: Lens<T>, log: seq<T>): (r: int) {
    if log == [] then 0
    else SumAll(l, log[..|log| - 1]) + l.weight(log[|log| - 1])
  }

  /** `entries.filter((e) => e.timestamp > cutoff)` */
  function Keep<T>(l: Lens<T>, log: seq<T>, cutoff: int): (r: seq<T>) {
    if log == [] then []
    else
      var e := log[|log| - 1];
      Keep(l, log[..|log| - 1], cutoff) + (if l.time(e) > cutoff then [e] else [])
  }

  /** Index of the first entry later than `lo`; the number of entries when there is none. */
  function FirstInside<T>(l: Lens<T>, log: seq<T>, lo: int): (k: nat)
    ensures k <= |log|
    ensures forall i | 0 <= i < k :: l.time(log[i]) <= lo
    ensures k < |log| ==> l.time(log[k]) > lo
  {
    if log == [] || l.time(log[0]) > lo then 0 else 1 + FirstInside(l, log[1..], lo)
  }

  predicate NotLater<T>(l: Lens<T>, log: seq<T>, now: int) {
    forall i | 0 <= i < |log| :: l.time(log[i]) <= now
  }

  /** Times do not decrease and none lies in the future. */
  predicate Ordered<T>(l: Lens<T>, log: seq<T>, now: int) {
    && NotLater(l, log, now)
    && forall i, j | 0 <= i < j < |log| :: l.time(log[i]) <= l.time(log[j])
  }

  predicate NonNegative<T>(l: Lens<T>, log: seq<T>) {
    forall i | 0 <= i < |log| :: l.weight(log[i]) >= 0
  }

  /** Every entry that weighs anything fitted under the limit when it was added. */
  predicate Guarded<T>(l: Lens<T>, log: seq<T>, width: int, limit: int) {
    log == [] ||
    var n := |log| - 1;
    && Guarded(l, log[..n], width, limit)
    && (l.weight(log[n]) > 0 ==>
          SumAfter(l, log[..n], l.time(log[n]) - width) + l.weight(log[n]) <= limit)
  }

  function AtLeastZero(n: int): (r: int) { if n < 0 then 0 else n }

  // ----- appending

  lemma SumAfterSnoc<T>(l: Lens<T>, log: seq<T>, e: T, lo: int)
    ensures SumAfter(l, log + [e], lo) == SumAfter(l, log, lo) + (if l.time(e) > lo then l.weight(e) else 0)
  {
  }

  lemma SumAllSnoc<T>(l: Lens<T>, log: seq<T>, e: T)
    ensures SumAll(l, log + [e]) == SumAll(l, log) + l.weight(e)
  {
  }

  // ----- signs and bounds

  lemma {:induction false} SumAfterNonNegative<T>(l: Lens<T>, log: seq<T>, lo: int)
    requires NonNegative(l, log)
    ensures SumAfter(l, log, lo) >= 0
  {
    if log != [] {
      SumAfterNonNegative(l, log[..|log| - 1], lo);
    }
  }

  lemma {:induction false} SumAfterNone<T>(l: Lens<T>, log: seq<T>, lo: int)
    requires NotLater(l, log, lo)
    ensures SumAfter(l, log, lo) == 0
  {
    if log != [] {
      SumAfterNone(l, log[..|log| - 1], lo);
    }
  }

  lemma {:induction false} SumAfterAllLater<T>(l: Lens<T>, log: seq<T>, lo: int)
    requires forall i | 0 <= i < |log| :: l.time(log[i]) > lo
    ensures SumAfter(l, log, lo) == SumAll(l, log)
  {
    if log != [] {
      SumAfterAllLater(l, log[..|log| - 1], lo);
    }
  }

  /** A later start of the window never raises the sum. */
  lemma {:induction false} SumAfterShrinks<T>(l: Lens<T>, log: seq<T>, lo: int, lo': int)
    requires NonNegative(l, log) && lo <= lo'
    ensures SumAfter(l, log, lo') <= SumAfter(l, log, lo)
  {
    if log != [] {
      SumAfterShrinks(l, log[..|log| - 1], lo, lo');
    }
  }

  /** With nothing between the two starts the sum is the same. */
  lemma {:induction false} SumAfterGap<T>(l: Lens<T>, log: seq<T>, lo: int, lo': int)
    requires lo <= lo'
    requires forall i | 0 <= i < |log| :: l.time(log[i]) <= lo || lo' < l.time(log[i])
    ensures SumAfter(l, log, lo') == SumAfter(l, log, lo)
  {
    if log != [] {
      SumAfterGap(l, log[..|log| - 1], lo, lo');
    }
  }

  /** Moving the start past entry i takes off at least its weight. */
  lemma {:induction false} SumAfterDrops<T>(l: Lens<T>, log: seq<T>, i: nat, lo: int, lo': int)
    requires NonNegative(l, log) && i < |log| && lo < l.time(log[i]) <= lo'
    ensures SumAfter(l, log, lo') + l.weight(log[i]) <= SumAfter(l, log, lo)
  {
    var n := |log| - 1;
    if i == n {
      SumAfterShrinks(l, log[..n], lo, lo');
    } else {
      SumAfterDrops(l, log[..n], i, lo, lo');
    }
  }

  /** A guarded log is within its limit at any later moment. */
  lemma {:induction false} GuardedNow<T>(l: Lens<T>, log: seq<T>, width: int, limit: int, now: int)
    requires NonNegative(l, log) && Ordered(l, log, now) && Guarded(l, log, width, limit)
    ensures SumAfter(l, log, now - width) <= AtLeastZero(limit)
  {
    if log != [] {
      var n := |log| - 1;
      if l.weight(log[n]) > 0 {
        SumAfterShrinks(l, log[..n], l.time(log[n]) - width, now - width);
        SumAfterNonNegative(l, log[..n], l.time(log[n]) - width);
      } else {
        GuardedNow(l, log[..n], width, limit, now);
      }
    }
  }

  lemma {:induction false} WithinAtMostAfter<T>(l: Lens<T>, log: seq<T>, a: int, b: int, lo: int)
    requires NonNegative(l, log) && lo <= a
    ensures SumWithin(l, log, a, b) <= SumAfter(l, log, lo)
  {
    if log != [] {
      WithinAtMostAfter(l, log[..|log| - 1], a, b, lo);
    }
  }

  // ----- pruning

  lemma {:induction false} KeepSums<T>(l: Lens<T>, k: Lens<T>, log: seq<T>, cutoff: int, lo: int)
    requires cutoff <= lo && l.time == k.time
    ensures SumAfter(l, Keep(k, log, cutoff), lo) == SumAfter(l, log, lo)
  {
    if log != [] {
      var rest, e := log[..|log| - 1], log[|log| - 1];
      KeepSums(l, k, rest, cutoff, lo);
      if k.time(e) > cutoff {
        SumAfterSnoc(l, Keep(k, rest, cutoff), e, lo);
      } else {
        assert Keep(k, rest, cutoff) + [] == Keep(k, rest, cutoff);
      }
    }
  }

  lemma {:induction false} KeepMembers<T>(l: Lens<T>, log: seq<T>, cutoff: int)
    ensures forall e | e in Keep(l, log, cutoff) :: e in log && l.time(e) > cutoff
    ensures forall e | e in log :: l.time(e) > cutoff ==> e in Keep(l, log, cutoff)
    ensures |Keep(l, log, cutoff)| <= |log|
  {
    if log != [] {
      var n := |log| - 1;
      KeepMembers(l, log[..n], cutoff);
      assert log == log[..n] + [log[n]];
    }
  }

  lemma {:induction false} KeepTwice<T>(l: Lens<T>, log: seq<T>, c: int, d: int)
    requires c <= d
    ensures Keep(l, Keep(l, log, c), d) == Keep(l, log, d)
  {
    if log != [] {
      var n := |log| - 1;
      KeepTwice(l, log[..n], c, d);
      if l.time(log[n]) > c {
        assert Keep(l, log, c)[..|Keep(l, log, c)| - 1] == Keep(l, log[..n], c);
      } else {
        assert Keep(l, log, c) == Keep(l, log[..n], c);
        assert Keep(l, log, d) == Keep(l, log[..n], d);
      }
    }
  }

  /** What is kept is later than the cutoff. */
  lemma KeptIsLater<T>(l: Lens<T>, log: seq<T>, cutoff: int)
    ensures forall i | 0 <= i < |Keep(l, log, cutoff)| :: l.time(Keep(l, log, cutoff)[i]) > cutoff
  {
    var kept := Keep(l, log, cutoff);
    KeepMembers(l, log, cutoff);
    assert forall i | 0 <= i < |kept| :: kept[i] in kept;
  }

  lemma KeepSnoc<T>(l: Lens<T>, log: seq<T>, e: T, c: int)
    ensures Keep(l, log + [e], c) == Keep(l, log, c) + (if l.time(e) > c then [e] else [])
  {
  }

  // ----- the window theorem

  /**
   * If every entry fitted under the limit when it was added, then every interval of one window
   * length, wherever it starts, stays under the limit.
   */
  lemma {:induction false} EveryWindow<T>(l: Lens<T>, log: seq<T>, width: int, limit: int, a: int)
    requires NonNegative(l, log) && Guarded(l, log, width, limit)
    requires forall i, j | 0 <= i < j < |log| :: l.time(log[i]) <= l.time(log[j])
    ensures SumWithin(l, log, a, a + width) <= AtLeastZero(limit)
  {
    if log != [] {
      var n := |log| - 1;
      var e := log[n];
      EveryWindow(l, log[..n], width, limit, a);
      if a < l.time(e) <= a + width && l.weight(e) > 0 {
        WithinAtMostAfter(l, log[..n], a, a + width, l.time(e) - width);
      }
    }
  }

  /** All that is kept lies after the cutoff. */
  lemma KeptSums<T>(l: Lens<T>, log: seq<T>, cutoff: int)
    ensures SumAll(l, Keep(l, log, cutoff)) == SumAfter(l, Keep(l, log, cutoff), cutoff)
  {
    var kept := Keep(l, log, cutoff);
    KeepMembers(l, log, cutoff);
    assert forall i | 0 <= i < |kept| :: kept[i] in kept;
    SumAfterAllLater(l, kept, cutoff);
  }

  lemma {:induction false} KeepEverything<T>(l: Lens<T>, log: seq<T>, cutoff: int)
    requires forall i | 0 <= i < |log| :: l.time(log[i]) > cutoff
    ensures Keep(l, log, cutoff) == log
  {
    if log != [] {
      var n := |log| - 1;
      KeepEverything(l, log[..n], cutoff);
      assert log == log[..n] + [log[n]];
    }
  }

  lemma {:induction false} KeepOrdered<T>(l: Lens<T>, log: seq<T>, cutoff: int, now: int)
    requires Ordered(l, log, now)
    ensures Ordered(l, Keep(l, log, cutoff), now)
  {
    if log != [] {
      var n := |log| - 1;
      KeepOrdered(l, log[..n], cutoff, now);
      KeptNotLater(l, log[..n], cutoff, l.time(log[n]));
    }
  }

  lemma {:induction false} KeptNotLater<T>(l: Lens<T>, log: seq<T>, cutoff: int, now: int)
    requires NotLater(l, log, now)
    ensures NotLater(l, Keep(l, log, cutoff), now)
  {
    if log != [] {
      KeptNotLater(l, log[..|log| - 1], cutoff, now);
    }
  }

  // ----- parts of a window

  lemma {:induction false} SumAfterSplits<T>(l: Lens<T>, log: seq<T>, lo: int, hi: int)
    requires lo <= hi
    ensures SumAfter(l, log, lo) == SumWithin(l, log, lo, hi) + SumAfter(l, log, hi)
  {
    if log != [] {
      SumAfterSplits(l, log[..|log| - 1], lo, hi);
    }
  }

  lemma {:induction false} SumWithinSplits<T>(l: Lens<T>, log: seq<T>, lo: int, mid: int, hi: int)
    requires lo <= mid <= hi
    ensures SumWithin(l, log, lo, hi) == SumWithin(l, log, lo, mid) + SumWithin(l, log, mid, hi)
  {
    if log != [] {
      SumWithinSplits(l, log[..|log| - 1], lo, mid, hi);
    }
  }

  /** What weighs less, entry by entry, sums up to less. */
  lemma {:induction false} SumWithinAtMost<T>(l: Lens<T>, k: Lens<T>, log: seq<T>, lo: int, hi: int)
    requires l.time == k.time && forall i | 0 <= i < |log| :: l.weight(log[i]) <= k.weight(log[i])
    ensures SumWithin(l, log, lo, hi) <= SumWithin(k, log, lo, hi)
  {
    if log != [] {
      var n := |log| - 1;
      assert forall i | 0 <= i < n :: log[..n][i] == log[i];
      SumWithinAtMost(l, k, log[..n], lo, hi);
    }
  }

  lemma {:induction false} SumWithinNonNegative<T>(l: Lens<T>, log: seq<T>, lo: int, hi: int)
    requires NonNegative(l, log)
    ensures SumWithin(l, log, lo, hi) >= 0
  {
    if log != [] {
      SumWithinNonNegative(l, log[..|log| - 1], lo, hi);
    }
  }
}
