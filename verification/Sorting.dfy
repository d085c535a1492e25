/** The stable sort that `Array.prototype.sort` performs, and what it does to the first match. */
module Sorting {
  import opened Text

  ghost predicate TotalPreorder<T(!new)>(le: (T, T) -> bool) {
    && (forall x, y :: le(x, y) || le(y, x))
    && (forall x, y, z :: le(x, y) && le(y, z) ==> le(x, z))
  }

  predicate SortedBy<T>(s: seq<T>, le: (T, T) -> bool) {
    forall i, j | 0 <= i < j < |s| :: le(s[i], s[j])
  }

  /** Puts x behind the elements that may stand before it. */
  function Insert<T>(s: seq<T>, x: T, le: (T, T) -> bool): (r: seq<T>)
    ensures |r| == |s| + 1
  {
    if s == [] then [x]
    else
      var n := |s| - 1;
      if le(s[n], x) then s + [x] else Insert(s[..n], x, le) + [s[n]]
  }

  function StableSort<T>(s: seq<T>, le: (T, T) -> bool): (r: seq<T>)
    ensures |r| == |s|
  {
    if s == [] then [] else Insert(StableSort(s[..|s| - 1], le), s[|s| - 1], le)
  }

  lemma {:induction false} InsertElements<T>(s: seq<T>, x: T, le: (T, T) -> bool)
    ensures multiset(Insert(s, x, le)) == multiset(s) + multiset{x}
  {
    if s != [] {
      var n := |s| - 1;
      assert s == s[..n] + [s[n]];
      if !le(s[n], x) {
        InsertElements(s[..n], x, le);
      }
    }
  }

  function Filtered<T>(s: seq<T>, p: T -> bool): (r: seq<T>) {
    if s == [] then [] else Filtered(s[..|s| - 1], p) + (if p(s[|s| - 1]) then [s[|s| - 1]] else [])
  }

  lemma FilteredSnoc<T>(s: seq<T>, x: T, p: T -> bool)
    ensures Filtered(s + [x], p) == Filtered(s, p) + (if p(x) then [x] else [])
  {
    assert (s + [x])[..|s|] == s;
  }

  lemma {:induction false} InsertKeepsOrder<T(!new)>(s: seq<T>, x: T, le: (T, T) -> bool, p: T -> bool)
    requires forall a, b :: p(a) && p(b) ==> le(a, b)
    ensures Filtered(Insert(s, x, le), p) == Filtered(s, p) + (if p(x) then [x] else [])
  {
    if s == [] {
      FilteredSnoc([], x, p);
    } else {
      var n := |s| - 1;
      if le(s[n], x) {
        FilteredSnoc(s, x, p);
      } else {
        InsertKeepsOrder(s[..n], x, le, p);
        FilteredSnoc(Insert(s[..n], x, le), s[n], p);
        assert Filtered(s[..n], p) + [] == Filtered(s[..n], p);
      }
    }
  }

  /** The sort is stable: elements that are all of one rank stay in the order they had. */
  lemma {:induction false} SortIsStable<T(!new)>(s: seq<T>, le: (T, T) -> bool, p: T -> bool)
    requires forall a, b :: p(a) && p(b) ==> le(a, b)
    ensures Filtered(StableSort(s, le), p) == Filtered(s, p)
  {
    if s != [] {
      var n := |s| - 1;
      SortIsStable(s[..n], le, p);
      InsertKeepsOrder(StableSort(s[..n], le), s[n], le, p);
    }
  }

  lemma {:induction false} SortPermutes<T>(s: seq<T>, le: (T, T) -> bool)
    ensures multiset(StableSort(s, le)) == multiset(s)
  {
    if s != [] {
      var n := |s| - 1;
      assert s == s[..n] + [s[n]];
      SortPermutes(s[..n], le);
      InsertElements(StableSort(s[..n], le), s[n], le);
    }
  }

  lemma {:induction false} InsertSorts<T(!new)>(s: seq<T>, x: T, le: (T, T) -> bool)
    requires TotalPreorder(le) && SortedBy(s, le)
    ensures SortedBy(Insert(s, x, le), le)
  {
    if s != [] {
      var n := |s| - 1;
      if le(s[n], x) {
        assert forall i | 0 <= i < n :: le(s[i], s[n]);
      } else {
        InsertSorts(s[..n], x, le);
        InsertElements(s[..n], x, le);
        var r := Insert(s[..n], x, le);
        forall i | 0 <= i < |r|
          ensures le(r[i], s[n])
        {
          assert r[i] in multiset(r);
          assert r[i] == x || r[i] in s[..n];
        }
      }
    }
  }

  lemma {:induction false} SortSorts<T(!new)>(s: seq<T>, le: (T, T) -> bool)
    requires TotalPreorder(le)
    ensures SortedBy(StableSort(s, le), le)
  {
    if s != [] {
      SortSorts(s[..|s| - 1], le);
      InsertSorts(StableSort(s[..|s| - 1], le), s[|s| - 1], le);
    }
  }

  /** The first element that satisfies p. */
  function FirstMatch<T>(s: seq<T>, p: T -> bool): (r: Option<T>) {
    if s == [] then None
    else
      var before := FirstMatch(s[..|s| - 1], p);
      if before.Some? then before
      else if p(s[|s| - 1]) then Some(s[|s| - 1]) else None
  }

  lemma {:induction false} FirstMatchIsElement<T>(s: seq<T>, p: T -> bool)
    requires FirstMatch(s, p).Some?
    ensures FirstMatch(s, p).value in s && p(FirstMatch(s, p).value)
  {
    if FirstMatch(s[..|s| - 1], p).Some? {
      FirstMatchIsElement(s[..|s| - 1], p);
    }
  }

  /** In a sorted list an inserted match comes first exactly if it is strictly smaller than the first match. */
  lemma {:induction false} FirstMatchAfterInsert<T(!new)>(s: seq<T>, x: T, le: (T, T) -> bool, p: T -> bool)
    requires TotalPreorder(le) && SortedBy(s, le)
    ensures FirstMatch(Insert(s, x, le), p) ==
            var first := FirstMatch(s, p);
            if p(x) && (first.None? || !le(first.value, x)) then Some(x) else first
  {
    if s != [] {
      var n := |s| - 1;
      if le(s[n], x) {
        if FirstMatch(s, p).Some? {
          FirstMatchBelow(s, x, le, p);
        }
      } else {
        var rest := s[..n];
        assert SortedBy(rest, le);
        FirstMatchAfterInsert(rest, x, le, p);
      }
    }
  }

  lemma FirstMatchBelow<T(!new)>(s: seq<T>, x: T, le: (T, T) -> bool, p: T -> bool)
    requires TotalPreorder(le) && SortedBy(s, le) && s != [] && le(s[|s| - 1], x) && FirstMatch(s, p).Some?
    ensures le(FirstMatch(s, p).value, x)
  {
  }
}
