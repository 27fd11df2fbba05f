/**
 * A stable sort by a key order, standing for Python's `list.sort(key=...)` and
 * `sorted(...)` (both stable). `le(a, b)` means "key of a <= key of b".
 */
module Sorting {

  /** Inserts `x` before the first element whose key is not smaller than its own. */
  function Insert<T>(x: T, s: seq<T>, le: (T, T) -> bool): (r: seq<T>)
    ensures |r| == |s| + 1
    ensures multiset(r) == multiset(s) + multiset{x}
  {
    if s == [] || le(x, s[0]) then [x] + s
    else
      assert s == [s[0]] + s[1..];
      [s[0]] + Insert(x, s[1..], le)
  }

  function SortBy<T>(s: seq<T>, le: (T, T) -> bool): (r: seq<T>)
    ensures |r| == |s|
    ensures multiset(r) == multiset(s)
  {
    if s == [] then []
    else
      assert s == [s[0]] + s[1..];
      Insert(s[0], SortBy(s[1..], le), le)
  }

  /** `le` is total and transitive on the elements of `s`. */
  ghost predicate TotalPreorderOn<T>(le: (T, T) -> bool, s: seq<T>)
  {
    && (forall a, b :: a in s && b in s ==> le(a, b) || le(b, a))
    && (forall a, b, c :: a in s && b in s && c in s && le(a, b) && le(b, c) ==> le(a, c))
  }

  ghost predicate SortedBy<T>(s: seq<T>, le: (T, T) -> bool)
  {
    forall i, j :: 0 <= i < j < |s| ==> le(s[i], s[j])
  }

  /** The elements of `s` whose key equals the key of `k`, in order. */
  function Equivalents<T>(s: seq<T>, k: T, le: (T, T) -> bool): seq<T>
  {
    if s == [] then []
    else (if le(s[0], k) && le(k, s[0]) then [s[0]] else []) + Equivalents(s[1..], k, le)
  }

  lemma PreorderOnSubset<T>(le: (T, T) -> bool, s: seq<T>, t: seq<T>)
    requires TotalPreorderOn(le, s)
    requires forall a :: a in t ==> a in s
    ensures TotalPreorderOn(le, t)
  {
  }

  lemma {:induction false} InsertSorted<T>(x: T, s: seq<T>, le: (T, T) -> bool)
    requires SortedBy(s, le)
    requires TotalPreorderOn(le, [x] + s)
    ensures SortedBy(Insert(x, s, le), le)
  {
    if s == [] || le(x, s[0]) {
      var r := [x] + s;
      forall i, j | 0 <= i < j < |r| ensures le(r[i], r[j]) {
        if i == 0 && j > 1 {
          assert le(x, s[0]) && le(s[0], s[j - 1]);
        }
      }
    } else {
      assert le(s[0], x);
      PreorderOnSubset(le, [x] + s, [x] + s[1..]);
      InsertSorted(x, s[1..], le);
      var tail := Insert(x, s[1..], le);
      var r := [s[0]] + tail;
      forall j | 0 <= j < |tail| ensures le(s[0], tail[j]) {
        assert tail[j] in multiset(tail);
        assert tail[j] == x || tail[j] in s[1..];
      }
      forall i, j | 0 <= i < j < |r| ensures le(r[i], r[j]) {
        if i > 0 {
          assert r[i] == tail[i - 1] && r[j] == tail[j - 1];
        } else {
          assert r[j] == tail[j - 1];
        }
      }
    }
  }

  /** The sort's output is ordered by key. */
  lemma {:induction false} SortBySorted<T>(s: seq<T>, le: (T, T) -> bool)
    requires TotalPreorderOn(le, s)
    ensures SortedBy(SortBy(s, le), le)
  {
    if s != [] {
      PreorderOnSubset(le, s, s[1..]);
      SortBySorted(s[1..], le);
      var t := SortBy(s[1..], le);
      forall a | a in [s[0]] + t ensures a in s {
        if a != s[0] {
          assert a in multiset(t);
        }
      }
      PreorderOnSubset(le, s, [s[0]] + t);
      InsertSorted(s[0], t, le);
    }
  }

  lemma EquivalentsCons<T>(x: T, s: seq<T>, k: T, le: (T, T) -> bool)
    ensures Equivalents([x] + s, k, le)
         == (if le(x, k) && le(k, x) then [x] else []) + Equivalents(s, k, le)
  {
    assert ([x] + s)[1..] == s;
  }

  lemma {:induction false} InsertStable<T>(x: T, s: seq<T>, k: T, le: (T, T) -> bool)
    requires TotalPreorderOn(le, [x, k] + s)
    ensures Equivalents(Insert(x, s, le), k, le) == Equivalents([x] + s, k, le)
  {
    if s != [] && !le(x, s[0]) {
      var t := s[0];
      var ex := if le(x, k) && le(k, x) then [x] else [];
      var et := if le(t, k) && le(k, t) then [t] else [];
      NotBothEquivalent(x, t, k, le, [x, k] + s);
      assert et + ex == ex + et;
      PreorderOnSubset(le, [x, k] + s, [x, k] + s[1..]);
      InsertStable(x, s[1..], k, le);
      EquivalentsCons(t, Insert(x, s[1..], le), k, le);
      EquivalentsCons(x, s[1..], k, le);
      EquivalentsCons(x, s, k, le);
      EquivalentsCons(t, s[1..], k, le);
      assert s == [t] + s[1..];
    }
  }

  /** An element that sorts strictly after `x` cannot share a key with `x`. */
  lemma NotBothEquivalent<T>(x: T, t: T, k: T, le: (T, T) -> bool, all: seq<T>)
    requires TotalPreorderOn(le, all)
    requires x in all && t in all && k in all
    requires !le(x, t)
    ensures !(le(x, k) && le(k, x) && le(t, k) && le(k, t))
  {
  }

  /**
   * Stability: for every key, the elements carrying that key appear in the
   * output in the same order as in the input.
   */
  lemma {:induction false} SortByStable<T>(s: seq<T>, k: T, le: (T, T) -> bool)
    requires TotalPreorderOn(le, [k] + s)
    ensures Equivalents(SortBy(s, le), k, le) == Equivalents(s, k, le)
  {
    if s != [] {
      PreorderOnSubset(le, [k] + s, [k] + s[1..]);
      SortByStable(s[1..], k, le);
      var t := SortBy(s[1..], le);
      forall a | a in [s[0], k] + t ensures a in [k] + s {
        if a != s[0] && a != k {
          assert a in multiset(t);
        }
      }
      PreorderOnSubset(le, [k] + s, [s[0], k] + t);
      InsertStable(s[0], t, k, le);
      EquivalentsCons(s[0], t, k, le);
      EquivalentsCons(s[0], s[1..], k, le);
      assert s == [s[0]] + s[1..];
    }
  }
}
