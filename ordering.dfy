/**
 * `sorted(...)` and pandas' `unique()` on sequences: insertion sort under a
 * strict order, and deduplication that keeps first occurrences.
 */
module Ordering {

  ghost predicate StrictTotalOrder<T(!new)>(lt: (T, T) -> bool)
  {
    && (forall a :: !lt(a, a))
    && (forall a, b, c :: lt(a, b) && lt(b, c) ==> lt(a, c))
    && (forall a, b :: a != b ==> lt(a, b) || lt(b, a))
  }

  /** Every element is strictly below every later one: sorted and duplicate-free. */
  predicate StrictlySorted<T>(s: seq<T>, lt: (T, T) -> bool)
  {
    forall i, j | 0 <= i < j < |s| :: lt(s[i], s[j])
  }

  predicate Distinct<T(==)>(s: seq<T>)
  {
    forall i, j | 0 <= i < j < |s| :: s[i] != s[j]
  }

  /** Insert `x` before the first element that is not below it. */
  function Insert<T>(x: T, s: seq<T>, lt: (T, T) -> bool): seq<T>
    decreases |s|
  {
    if s == [] then [x]
    else if lt(s[0], x) then [s[0]] + Insert(x, s[1..], lt)
    else [x] + s
  }

  /** Python's `sorted`: a stable insertion sort. */
  function SortBy<T>(s: seq<T>, lt: (T, T) -> bool): seq<T>
    decreases |s|
  {
    if s == [] then [] else Insert(s[0], SortBy(s[1..], lt), lt)
  }

  /** pandas' `unique()`: each value once, in order of first appearance. */
  function Unique<T(==)>(s: seq<T>): seq<T>
    decreases |s|
  {
    if s == [] then []
    else
      var u := Unique(s[..|s| - 1]);
      if s[|s| - 1] in u then u else u + [s[|s| - 1]]
  }

  lemma {:induction false} InsertElements<T>(x: T, s: seq<T>, lt: (T, T) -> bool)
    ensures multiset(Insert(x, s, lt)) == multiset(s) + multiset{x}
    decreases |s|
  {
    if s != [] && lt(s[0], x) {
      InsertElements(x, s[1..], lt);
      assert s == [s[0]] + s[1..];
    }
  }

  /** Sorting is a permutation. */
  lemma {:induction false} SortElements<T>(s: seq<T>, lt: (T, T) -> bool)
    ensures multiset(SortBy(s, lt)) == multiset(s)
    decreases |s|
  {
    if s != [] {
      SortElements(s[1..], lt);
      InsertElements(s[0], SortBy(s[1..], lt), lt);
      assert s == [s[0]] + s[1..];
    }
  }

  lemma {:induction false} InsertStrictlySorted<T(!new)>(x: T, s: seq<T>, lt: (T, T) -> bool)
    requires StrictTotalOrder(lt) && StrictlySorted(s, lt) && x !in s
    ensures StrictlySorted(Insert(x, s, lt), lt)
    decreases |s|
  {
    if s != [] {
      if lt(s[0], x) {
        InsertStrictlySorted(x, s[1..], lt);
        InsertElements(x, s[1..], lt);
        var r := Insert(x, s[1..], lt);
        forall k | 0 <= k < |r| ensures lt(s[0], r[k]) {
          assert r[k] in multiset(r);
          assert r[k] == x || r[k] in s[1..];
        }
      } else {
        assert lt(x, s[0]);
      }
    }
  }

  /** Sorting duplicate-free values gives a strictly increasing sequence. */
  lemma {:induction false} SortStrictlySorted<T(!new)>(s: seq<T>, lt: (T, T) -> bool)
    requires StrictTotalOrder(lt) && Distinct(s)
    ensures StrictlySorted(SortBy(s, lt), lt)
    decreases |s|
  {
    if s != [] {
      SortStrictlySorted(s[1..], lt);
      SortElements(s[1..], lt);
      assert s[0] !in multiset(s[1..]);
      InsertStrictlySorted(s[0], SortBy(s[1..], lt), lt);
    }
  }

  /** `unique()` keeps exactly the values of its input, each once. */
  lemma {:induction false} UniqueElements<T>(s: seq<T>)
    ensures Distinct(Unique(s))
    ensures forall x :: x in Unique(s) <==> x in s
    decreases |s|
  {
    if s != [] {
      var init := s[..|s| - 1];
      UniqueElements(init);
      assert s == init + [s[|s| - 1]];
    }
  }

  /** `unique()` shortens its input exactly when the input repeats a value. */
  lemma {:induction false} UniqueLength<T>(s: seq<T>)
    ensures |Unique(s)| <= |s|
    ensures |Unique(s)| == |s| <==> Distinct(s)
    decreases |s|
  {
    if s != [] {
      var init := s[..|s| - 1];
      var last := s[|s| - 1];
      UniqueLength(init);
      UniqueElements(init);
      assert s == init + [last];
      if last in init {
        var i :| 0 <= i < |init| && init[i] == last;
        assert s[i] == s[|s| - 1];
      } else {
        if Distinct(init) {
          forall i, j | 0 <= i < j < |s| ensures s[i] != s[j] {
            if j == |s| - 1 { assert s[i] == init[i]; }
          }
        } else {
          var i, j :| 0 <= i < j < |init| && init[i] == init[j];
          assert s[i] == s[j];
        }
      }
    }
  }

  /** `sorted(unique(s))`: strictly increasing, and holding exactly the values of `s`. */
  lemma SortedUnique<T(!new)>(s: seq<T>, lt: (T, T) -> bool)
    requires StrictTotalOrder(lt)
    ensures StrictlySorted(SortBy(Unique(s), lt), lt)
    ensures forall x :: x in SortBy(Unique(s), lt) <==> x in s
  {
    UniqueElements(s);
    SortStrictlySorted(Unique(s), lt);
    SortElements(Unique(s), lt);
    forall x ensures x in SortBy(Unique(s), lt) <==> x in Unique(s) {
      assert x in SortBy(Unique(s), lt) <==> x in multiset(SortBy(Unique(s), lt));
    }
  }

  lemma HeadIn<T>(s: seq<T>)
    ensures s != [] ==> s[0] in s
  {
  }

  /** Two strictly sorted sequences with the same elements are equal: the sorted option list is determined. */
  lemma {:induction false} StrictlySortedUnique<T(!new)>(a: seq<T>, b: seq<T>, lt: (T, T) -> bool)
    requires StrictTotalOrder(lt) && StrictlySorted(a, lt) && StrictlySorted(b, lt)
    requires forall x :: x in a <==> x in b
    ensures a == b
    decreases |a|
  {
    if a == [] || b == [] {
      HeadIn(a);
      HeadIn(b);
    } else {
      assert b[0] in a && a[0] in b;
      var i :| 0 <= i < |a| && a[i] == b[0];
      var j :| 0 <= j < |b| && b[j] == a[0];
      assert a[0] == b[0];
      forall x ensures x in a[1..] <==> x in b[1..] {
        if x in a[1..] {
          assert lt(a[0], x);
          assert x in b;
        }
        if x in b[1..] {
          assert lt(b[0], x);
          assert x in a;
        }
      }
      StrictlySortedUnique(a[1..], b[1..], lt);
      assert a == [a[0]] + a[1..] && b == [b[0]] + b[1..];
    }
  }
}
