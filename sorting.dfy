/**
 * Ordering by a caller-supplied "less" relation, as `sort.Sort` and
 * `container/heap` do with a `Less` method.  The library's algorithms are
 * not part of this model; `Sort` is an insertion sort that stands for
 * "some sorted permutation" and `MinIndex` for "the position of some
 * minimal element".
 */
module Sorting {

  ghost predicate Irreflexive<T(!new)>(less: (T, T) -> bool)
  {
    forall a :: !less(a, a)
  }

  ghost predicate Transitive<T(!new)>(less: (T, T) -> bool)
  {
    forall a, b, c :: less(a, b) && less(b, c) ==> less(a, c)
  }

  /** Incomparability is transitive too: the relation ranks values in tiers. */
  ghost predicate NegativelyTransitive<T(!new)>(less: (T, T) -> bool)
  {
    forall a, b, c :: !less(a, b) && !less(b, c) ==> !less(a, c)
  }

  /** What `sort.Sort` and `container/heap` require of `Less`. */
  ghost predicate StrictWeakOrder<T(!new)>(less: (T, T) -> bool)
  {
    Irreflexive(less) && Transitive(less) && NegativelyTransitive(less)
  }

  /** No element is less than one before it. */
  predicate Sorted<T>(s: seq<T>, less: (T, T) -> bool)
  {
    forall i, j :: 0 <= i < j < |s| ==> !less(s[j], s[i])
  }

  /** `x` placed into `s` before the first element it is less than. */
  function Insert<T>(x: T, s: seq<T>, less: (T, T) -> bool): (r: seq<T>)
    ensures |r| == |s| + 1
    ensures multiset(r) == multiset(s) + multiset{x}
  {
    if s == [] || less(x, s[0]) then [x] + s
    else
      assert s == [s[0]] + s[1..];
      [s[0]] + Insert(x, s[1..], less)
  }

  /** The elements of `s` rearranged in order of `less`. */
  function Sort<T>(s: seq<T>, less: (T, T) -> bool): (r: seq<T>)
    ensures |r| == |s|
    ensures multiset(r) == multiset(s)
  {
    if s == [] then []
    else
      assert s == [s[0]] + s[1..];
      Insert(s[0], Sort(s[1..], less), less)
  }

  /** Every element of `Insert(x, s, less)` is `x` or an element of `s`. */
  lemma {:induction false} InsertElement<T>(x: T, s: seq<T>, less: (T, T) -> bool, j: nat)
    requires j <= |s|
    ensures Insert(x, s, less)[j] == x || Insert(x, s, less)[j] in s
  {
    if s != [] && !less(x, s[0]) && j > 0 {
      InsertElement(x, s[1..], less, j - 1);
    }
  }

  lemma {:induction false} InsertSorted<T(!new)>(x: T, s: seq<T>, less: (T, T) -> bool)
    requires Irreflexive(less) && Transitive(less)
    requires Sorted(s, less)
    ensures Sorted(Insert(x, s, less), less)
  {
    if s != [] && !less(x, s[0]) {
      var rest := Insert(x, s[1..], less);
      InsertSorted(x, s[1..], less);
      forall j | 0 <= j < |rest|
        ensures !less(rest[j], s[0])
      {
        InsertElement(x, s[1..], less, j);
      }
    }
  }

  /** `Sort` returns a sorted permutation of its input. */
  lemma {:induction false} SortSorted<T(!new)>(s: seq<T>, less: (T, T) -> bool)
    requires Irreflexive(less) && Transitive(less)
    ensures Sorted(Sort(s, less), less)
  {
    if s != [] {
      SortSorted(s[1..], less);
      InsertSorted(s[0], Sort(s[1..], less), less);
    }
  }

  /** Position of the first element that no element of `s` is less than. */
  function MinIndex<T>(s: seq<T>, less: (T, T) -> bool): (i: nat)
    requires |s| > 0
    ensures i < |s|
  {
    if |s| == 1 then 0
    else
      var j := 1 + MinIndex(s[1..], less);
      if less(s[j], s[0]) then j else 0
  }

  /** The element `MinIndex` picks is not greater than any other. */
  lemma {:induction false} MinIndexIsMinimal<T(!new)>(s: seq<T>, less: (T, T) -> bool)
    requires |s| > 0 && StrictWeakOrder(less)
    ensures forall k :: 0 <= k < |s| ==> !less(s[k], s[MinIndex(s, less)])
  {
    if |s| > 1 {
      MinIndexIsMinimal(s[1..], less);
      var j := 1 + MinIndex(s[1..], less);
      forall k | 0 <= k < |s|
        ensures !less(s[k], s[MinIndex(s, less)])
      {
        if k > 0 {
          assert s[k] == s[1..][k - 1];
        }
      }
    }
  }

  /** `s` with the element at `i` removed. */
  function RemoveAt<T>(s: seq<T>, i: nat): (r: seq<T>)
    requires i < |s|
    ensures |r| == |s| - 1
    ensures multiset(r) + multiset{s[i]} == multiset(s)
    ensures forall k :: 0 <= k < |r| ==> r[k] == (if k < i then s[k] else s[k + 1])
  {
    assert s == s[..i] + [s[i]] + s[i + 1..];
    s[..i] + s[i + 1..]
  }

  /** Any two distinct values are ordered one way or the other. */
  ghost predicate Total<T(!new)>(less: (T, T) -> bool)
  {
    forall a, b :: a != b ==> less(a, b) || less(b, a)
  }

  /**
   * `sort.Sort` is not stable, and any two sorted permutations of the same
   * elements may differ; but only in the order of equivalent elements: at
   * every position, neither is less than the other.
   */
  lemma SortedEquivalent<T(!new)>(s: seq<T>, t: seq<T>, less: (T, T) -> bool)
    requires StrictWeakOrder(less)
    requires Sorted(s, less) && Sorted(t, less) && multiset(s) == multiset(t)
    ensures |s| == |t|
    ensures forall i :: 0 <= i < |s| ==> !less(s[i], t[i]) && !less(t[i], s[i])
  {
    assert |s| == |multiset(s)| == |multiset(t)| == |t|;
    forall i | 0 <= i < |s|
      ensures !less(s[i], t[i]) && !less(t[i], s[i])
    {
      NotLessAt(s, t, i, less);
      NotLessAt(t, s, i, less);
    }
  }

  /** In the same position of two sorted permutations, the first is not less than the second. */
  lemma NotLessAt<T(!new)>(s: seq<T>, t: seq<T>, i: nat, less: (T, T) -> bool)
    requires StrictWeakOrder(less)
    requires Sorted(s, less) && Sorted(t, less) && multiset(s) == multiset(t)
    requires i < |s| && i < |t|
    ensures !less(s[i], t[i])
  {
    if less(s[i], t[i]) {
      PrefixLess(s, i, t[i], less);
      SuffixNotLess(t, i, less);
      CountLess(s, t, t[i], i + 1, i, less);
      assert false;
    }
  }

  /** In a sorted sequence, everything up to an element less than `a` is less than `a`. */
  lemma PrefixLess<T(!new)>(s: seq<T>, i: nat, a: T, less: (T, T) -> bool)
    requires StrictWeakOrder(less) && Sorted(s, less)
    requires i < |s| && less(s[i], a)
    ensures forall j :: 0 <= j <= i ==> less(s[j], a)
  {
    forall j | 0 <= j < i
      ensures less(s[j], a)
    {
      assert !less(s[i], s[j]);
    }
  }

  /** In a sorted sequence, nothing from position `i` on is less than the element there. */
  lemma SuffixNotLess<T(!new)>(t: seq<T>, i: nat, less: (T, T) -> bool)
    requires StrictWeakOrder(less) && Sorted(t, less) && i < |t|
    ensures forall j :: i <= j < |t| ==> !less(t[j], t[i])
  {
  }

  /**
   * If the first `n` elements of `s` are less than `a` and none of `t`
   * from `m` on is, and `s` and `t` hold the same elements, then those `n`
   * elements all sit among the first `m` of `t`.
   */
  lemma CountLess<T(!new)>(s: seq<T>, t: seq<T>, a: T, n: nat, m: nat, less: (T, T) -> bool)
    requires multiset(s) == multiset(t) && n <= |s| && m <= |t|
    requires forall j :: 0 <= j < n ==> less(s[j], a)
    requires forall j :: m <= j < |t| ==> !less(t[j], a)
    ensures n <= m
  {
    var low, high := multiset(s[..n]), multiset(t[..m]);
    assert s == s[..n] + s[n..];
    assert t == t[..m] + t[m..];
    forall x
      ensures low[x] <= high[x]
    {
      if x in low {
        var j :| 0 <= j < n && s[j] == x;
        assert less(x, a);
        assert x !in multiset(t[m..]);
        assert multiset(s)[x] == low[x] + multiset(s[n..])[x];
        assert multiset(t)[x] == high[x] + multiset(t[m..])[x];
      }
    }
    assert high == low + (high - low);
  }

  /** Under a total order there is only one sorted permutation: whatever algorithm sorts, it gives what `Sort` gives. */
  lemma SortedUnique<T(!new)>(s: seq<T>, t: seq<T>, less: (T, T) -> bool)
    requires StrictWeakOrder(less) && Total(less)
    requires Sorted(s, less) && Sorted(t, less) && multiset(s) == multiset(t)
    ensures s == t
  {
    SortedEquivalent(s, t, less);
  }
}
