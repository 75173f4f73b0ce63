/**
 * The rows a file sorter holds and the order it sorts them in
 * (`comparableRow` and `lessThan` in sql/util/filesort/filesort.go).
 */
module SortRows {
  import opened Datums
  import opened Sorting

  /** A row to sort: the sort key, the payload carried along and the row handle. */
  datatype Row = Row(key: seq<Datum>, val: seq<Datum>, handle: int64)

  /** A column comparison turned around when the column sorts descending. */
  function Directed(c: int, desc: bool): int
  {
    if desc then -c else c
  }

  /**
   * Three-way comparison of two keys from column `k` on, column by column,
   * each column in its own direction; the first unequal column decides.
   * Keys are compared on their first `|byDesc|` columns only.  A key that is
   * too short (the source indexes past its end and panics) sorts before a
   * longer one, which keeps the comparison a total preorder on all keys.
   */
  function KeyCompare(a: seq<Datum>, b: seq<Datum>, byDesc: seq<bool>, k: nat): (c: int)
    decreases |byDesc| - k
    ensures c == -1 || c == 0 || c == 1
  {
    if k >= |byDesc| then 0
    else if k >= |a| && k >= |b| then 0
    else if k >= |a| then -1
    else if k >= |b| then 1
    else
      var c := Directed(Compare(a[k], b[k]), byDesc[k]);
      if c != 0 then c else KeyCompare(a, b, byDesc, k + 1)
  }

  /** Key `a` sorts strictly before key `b` (`lessThan` without its error result). */
  predicate KeyLess(a: seq<Datum>, b: seq<Datum>, byDesc: seq<bool>)
  {
    KeyCompare(a, b, byDesc, 0) < 0
  }

  /** The order the file sorter sorts rows in: by key only. */
  function RowLess(byDesc: seq<bool>): (Row, Row) -> bool
  {
    (x: Row, y: Row) => KeyLess(x.key, y.key, byDesc)
  }

  /** The loop of `lessThan`: the first column whose directed comparison is non-zero decides. */
  method LessThan(i: seq<Datum>, j: seq<Datum>, byDesc: seq<bool>) returns (r: bool)
    requires |i| >= |byDesc| && |j| >= |byDesc|
    ensures r == KeyLess(i, j, byDesc)
    ensures r <==> exists k :: 0 <= k < |byDesc| && Directed(Compare(i[k], j[k]), byDesc[k]) < 0
                                 && forall m :: 0 <= m < k ==> i[m] == j[m]
  {
    var k := 0;
    while k < |byDesc|
      invariant 0 <= k <= |byDesc|
      invariant KeyCompare(i, j, byDesc, 0) == KeyCompare(i, j, byDesc, k)
      invariant forall m :: 0 <= m < k ==> i[m] == j[m]
    {
      var ret := Compare(i[k], j[k]);
      if byDesc[k] {
        ret := -ret;
      }
      if ret < 0 {
        return true;
      } else if ret > 0 {
        assert forall k' :: 0 <= k' < |byDesc| && Directed(Compare(i[k'], j[k']), byDesc[k']) < 0 ==> k' > k;
        return false;
      }
      k := k + 1;
    }
    return false;
  }

  lemma {:induction false} KeyCompareAntisymmetric(a: seq<Datum>, b: seq<Datum>, byDesc: seq<bool>, k: nat)
    ensures KeyCompare(b, a, byDesc, k) == -KeyCompare(a, b, byDesc, k)
    decreases |byDesc| - k
  {
    if k < |byDesc| && k < |a| && k < |b| {
      CompareAntisymmetric(a[k], b[k]);
      KeyCompareAntisymmetric(a, b, byDesc, k + 1);
    }
  }

  lemma {:induction false} KeyCompareTransitive(a: seq<Datum>, b: seq<Datum>, c: seq<Datum>, byDesc: seq<bool>, k: nat)
    requires KeyCompare(a, b, byDesc, k) <= 0 && KeyCompare(b, c, byDesc, k) <= 0
    ensures KeyCompare(a, c, byDesc, k) <= 0
    ensures KeyCompare(a, b, byDesc, k) < 0 || KeyCompare(b, c, byDesc, k) < 0 ==> KeyCompare(a, c, byDesc, k) < 0
    decreases |byDesc| - k
  {
    if k < |byDesc| && k < |a| && k < |b| && k < |c| {
      var ab := Compare(a[k], b[k]);
      var bc := Compare(b[k], c[k]);
      if byDesc[k] {
        CompareAntisymmetric(a[k], b[k]);
        CompareAntisymmetric(b[k], c[k]);
        CompareAntisymmetric(a[k], c[k]);
        if ab > 0 && bc > 0 {
          CompareTransitive(c[k], b[k], a[k]);
        }
      } else if ab < 0 && bc < 0 {
        CompareTransitive(a[k], b[k], c[k]);
      }
      if ab == 0 && bc == 0 {
        KeyCompareTransitive(a, b, c, byDesc, k + 1);
      }
    }
  }

  /** Neither being less than the next is transitive: the order ranks keys in tiers. */
  lemma KeyNotLessTransitive(a: seq<Datum>, b: seq<Datum>, c: seq<Datum>, byDesc: seq<bool>)
    requires !KeyLess(a, b, byDesc) && !KeyLess(b, c, byDesc)
    ensures !KeyLess(a, c, byDesc)
  {
    KeyCompareAntisymmetric(a, b, byDesc, 0);
    KeyCompareAntisymmetric(b, c, byDesc, 0);
    KeyCompareAntisymmetric(a, c, byDesc, 0);
    KeyCompareTransitive(c, b, a, byDesc, 0);
  }

  /** The row order is a strict weak order, as `sort.Sort` and `container/heap` need. */
  lemma RowLessIsStrictWeakOrder(byDesc: seq<bool>)
    ensures StrictWeakOrder(RowLess(byDesc))
  {
    var less := RowLess(byDesc);
    forall a: Row
      ensures !less(a, a)
    {
      KeyCompareAntisymmetric(a.key, a.key, byDesc, 0);
    }
    forall a: Row, b: Row, c: Row | less(a, b) && less(b, c)
      ensures less(a, c)
    {
      KeyCompareTransitive(a.key, b.key, c.key, byDesc, 0);
    }
    forall a: Row, b: Row, c: Row | !less(a, b) && !less(b, c)
      ensures !less(a, c)
    {
      KeyCompareAntisymmetric(a.key, b.key, byDesc, 0);
      KeyCompareAntisymmetric(b.key, c.key, byDesc, 0);
      KeyCompareAntisymmetric(a.key, c.key, byDesc, 0);
      KeyCompareTransitive(c.key, b.key, a.key, byDesc, 0);
    }
  }

  /**
   * `sort.Sort` on the rows is not stable, but any two sorted permutations
   * of the same rows hold, position by position, rows whose keys compare
   * equal: only rows with equal keys can trade places.
   */
  lemma SortedKeysAgree(s: seq<Row>, t: seq<Row>, byDesc: seq<bool>)
    requires Sorted(s, RowLess(byDesc)) && Sorted(t, RowLess(byDesc)) && multiset(s) == multiset(t)
    ensures |s| == |t|
    ensures forall i :: 0 <= i < |s| ==> KeyCompare(s[i].key, t[i].key, byDesc, 0) == 0
  {
    RowLessIsStrictWeakOrder(byDesc);
    SortedEquivalent(s, t, RowLess(byDesc));
    forall i | 0 <= i < |s|
      ensures KeyCompare(s[i].key, t[i].key, byDesc, 0) == 0
    {
      assert !RowLess(byDesc)(s[i], t[i]) && !RowLess(byDesc)(t[i], s[i]);
      KeyCompareAntisymmetric(s[i].key, t[i].key, byDesc, 0);
    }
  }
}
