/** A model of the standard library's `sort` and `sort_by` on vectors: the result is a
    permutation of the input, ordered by the comparison. Equal elements keep their input
    order, as in the stable library sort. */
module Sorting {

  /** Any two values compare. */
  ghost predicate IsTotal<T(!new)>(le: (T, T) -> bool)
  {
    forall a, b :: le(a, b) || le(b, a)
  }

  /** Comparison is transitive. */
  ghost predicate IsTransitive<T(!new)>(le: (T, T) -> bool)
  {
    forall a, b, c :: le(a, b) && le(b, c) ==> le(a, c)
  }

  /** `le` is a total preorder. */
  ghost predicate IsTotalPreorder<T(!new)>(le: (T, T) -> bool)
  {
    IsTotal(le) && IsTransitive(le)
  }

  predicate SortedBy<T>(s: seq<T>, le: (T, T) -> bool)
  {
    forall i, j | 0 <= i < j < |s| :: le(s[i], s[j])
  }

  /** `x` is not greater than any element of `s`. */
  ghost predicate Below<T>(x: T, s: seq<T>, le: (T, T) -> bool)
  {
    forall k | 0 <= k < |s| :: le(x, s[k])
  }

  lemma BelowSorted<T(!new)>(x: T, s: seq<T>, le: (T, T) -> bool)
    requires IsTransitive(le) && SortedBy(s, le) && |s| > 0 && le(x, s[0])
    ensures Below(x, s, le)
  {
    forall k | 0 <= k < |s| ensures le(x, s[k]) {
      if k > 0 {
        assert le(s[0], s[k]);
      }
    }
  }

  lemma BelowPermutation<T>(x: T, s: seq<T>, t: seq<T>, le: (T, T) -> bool)
    requires Below(x, s, le) && multiset(t) <= multiset(s)
    ensures Below(x, t, le)
  {
    forall k | 0 <= k < |t| ensures le(x, t[k]) {
      assert t[k] in multiset(t);
      assert t[k] in s;
    }
  }

  /** Insert `x` before the first element it is not greater than. */
  function Insert<T(!new)>(x: T, s: seq<T>, le: (T, T) -> bool): (r: seq<T>)
    requires IsTotalPreorder(le) && SortedBy(s, le)
    ensures multiset(r) == multiset(s) + multiset{x}
    ensures SortedBy(r, le)
  {
    if s == [] then [x]
    else if le(x, s[0]) then
      BelowSorted(x, s, le);
      [x] + s
    else
      var t := Insert(x, s[1..], le);
      HeadBelowInsert(x, s, t, le);
      [s[0]] + t
  }

  /** When `x` goes after the head, the head is below the rest with `x` inserted. */
  lemma HeadBelowInsert<T(!new)>(x: T, s: seq<T>, t: seq<T>, le: (T, T) -> bool)
    requires IsTotalPreorder(le) && SortedBy(s, le) && |s| > 0 && !le(x, s[0])
    requires multiset(t) == multiset(s[1..]) + multiset{x}
    ensures Below(s[0], t, le)
    ensures multiset([s[0]] + t) == multiset(s) + multiset{x}
  {
    assert s == [s[0]] + s[1..];
    assert Below(s[0], s[1..] + [x], le) by {
      assert le(s[0], x);
      assert forall k | 0 <= k < |s| - 1 :: s[1..][k] == s[k + 1];
    }
    BelowPermutation(s[0], s[1..] + [x], t, le);
  }

  /** The sorted permutation of `s`. */
  function Sort<T(!new)>(s: seq<T>, le: (T, T) -> bool): (r: seq<T>)
    requires IsTotalPreorder(le)
    ensures multiset(r) == multiset(s)
    ensures SortedBy(r, le)
  {
    if s == [] then []
    else
      assert s == [s[0]] + s[1..];
      Insert(s[0], Sort(s[1..], le), le)
  }

  /** Elements that `le` ties keep the order `tie` gives them. */
  ghost predicate StableBy<T>(r: seq<T>, le: (T, T) -> bool, tie: (T, T) -> bool)
  {
    forall i, j | 0 <= i < j < |r| :: le(r[j], r[i]) ==> tie(r[i], r[j])
  }

  /** Inserting an element that `tie` puts before all others keeps ties in `tie` order. */
  lemma {:induction false} InsertStable<T(!new)>(x: T, t: seq<T>, le: (T, T) -> bool, tie: (T, T) -> bool)
    requires IsTotalPreorder(le) && SortedBy(t, le) && StableBy(t, le, tie)
    requires forall k | 0 <= k < |t| :: tie(x, t[k])
    ensures StableBy(Insert(x, t, le), le, tie)
  {
    if t != [] && !le(x, t[0]) {
      var u := Insert(x, t[1..], le);
      assert forall k | 0 <= k < |t| - 1 :: t[1..][k] == t[k + 1];
      InsertStable(x, t[1..], le, tie);
      var r := Insert(x, t, le);
      assert r == [t[0]] + u;
      forall i, j | 0 <= i < j < |r| && le(r[j], r[i]) ensures tie(r[i], r[j]) {
        if i > 0 {
          assert r[i] == u[i - 1] && r[j] == u[j - 1];
        } else {
          assert r[j] == u[j - 1] && u[j - 1] in multiset(u);
          if r[j] != x {
            assert r[j] in multiset(t[1..]);
            var m :| 0 <= m < |t| - 1 && t[1..][m] == r[j];
            assert t[m + 1] == r[j];
          }
        }
      }
    }
  }

  /** `Sort` is stable: when the input is ordered by `tie`, elements that `le` ties are left
      in `tie` order, so sorting by `tie` and then by `le` orders by `le` first and `tie`
      second. */
  lemma {:induction false} SortStable<T(!new)>(s: seq<T>, le: (T, T) -> bool, tie: (T, T) -> bool)
    requires IsTotalPreorder(le) && SortedBy(s, tie)
    ensures StableBy(Sort(s, le), le, tie)
  {
    if s != [] {
      assert forall k | 0 <= k < |s| - 1 :: s[1..][k] == s[k + 1];
      SortStable(s[1..], le, tie);
      var t := Sort(s[1..], le);
      forall k | 0 <= k < |t| ensures tie(s[0], t[k]) {
        assert t[k] in multiset(t);
        assert t[k] in multiset(s[1..]);
        var m :| 0 <= m < |s| - 1 && s[1..][m] == t[k];
      }
      InsertStable(s[0], t, le, tie);
    }
  }
}
