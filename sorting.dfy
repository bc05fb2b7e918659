/**
 * Stable sorting by a two-level numeric key, as `Array.prototype.sort` does with the
 * comparators of the source (`a.workspace.id - b.workspace.id`, then `a.at[0] - b.at[0]`;
 * `a.id - b.id`). Insertion sort: each element goes after every element not greater than it.
 */
module Sorting {

  /** `a` may precede `b`: the comparator returns a non-positive number. */
  predicate KeyLe(a: (int, int), b: (int, int)) {
    a.0 < b.0 || (a.0 == b.0 && a.1 <= b.1)
  }

  ghost predicate SortedBy<T>(s: seq<T>, key: T -> (int, int)) {
    forall i, j :: 0 <= i < j < |s| ==> KeyLe(key(s[i]), key(s[j]))
  }

  /** `s.filter(x => key(x) == k)`: the elements whose key is `k`, in their order. */
  function WithKey<T>(s: seq<T>, key: T -> (int, int), k: (int, int)): seq<T> {
    if s == [] then []
    else WithKey(s[..|s| - 1], key, k) + (if key(s[|s| - 1]) == k then [s[|s| - 1]] else [])
  }

  /** Unfolding `WithKey` on a sequence extended by one element. */
  lemma WithKeySnoc<T>(s: seq<T>, x: T, key: T -> (int, int), k: (int, int))
    ensures WithKey(s + [x], key, k) == WithKey(s, key, k) + (if key(x) == k then [x] else [])
  {
    assert (s + [x])[..|s|] == s;
  }

  function Insert<T>(s: seq<T>, x: T, key: T -> (int, int)): (r: seq<T>)
    requires SortedBy(s, key)
    ensures SortedBy(r, key)
    ensures multiset(r) == multiset(s) + multiset{x}
    ensures |r| == |s| + 1
    ensures forall i :: 0 <= i < |r| ==> r[i] == x || r[i] in s
    ensures forall k :: WithKey(r, key, k) == WithKey(s, key, k) + (if key(x) == k then [x] else [])
  {
    if s == [] || KeyLe(key(s[|s| - 1]), key(x)) then
      assert forall k :: WithKey(s + [x], key, k) == WithKey(s, key, k) + (if key(x) == k then [x] else []) by {
        forall k { WithKeySnoc(s, x, key, k); }
      }
      s + [x]
    else
      var init, last := s[..|s| - 1], s[|s| - 1];
      assert s == init + [last];
      var r := Insert(init, x, key) + [last];
      assert forall k :: WithKey(r, key, k) == WithKey(s, key, k) + (if key(x) == k then [x] else []) by {
        forall k ensures WithKey(r, key, k) == WithKey(s, key, k) + (if key(x) == k then [x] else []) {
          WithKeySnoc(Insert(init, x, key), last, key, k);
          WithKeySnoc(init, last, key, k);
        }
      }
      assert forall i :: 0 <= i < |r| - 1 ==> KeyLe(key(r[i]), key(last)) by {
        forall i | 0 <= i < |r| - 1 ensures KeyLe(key(r[i]), key(last)) {
          if r[i] != x {
            assert r[i] in init;
          }
        }
      }
      r
  }

  /** The elements of `s`, reordered so that keys never decrease; elements with equal keys keep their order. */
  function SortBy<T>(s: seq<T>, key: T -> (int, int)): (r: seq<T>)
    ensures SortedBy(r, key)
    ensures multiset(r) == multiset(s)
    ensures |r| == |s|
    ensures forall k :: WithKey(r, key, k) == WithKey(s, key, k)
  {
    if s == [] then []
    else
      assert s == s[..|s| - 1] + [s[|s| - 1]];
      Insert(SortBy(s[..|s| - 1], key), s[|s| - 1], key)
  }
}
