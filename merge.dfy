/**
 * The k-way merge behind the file sorter's external phase (`externalSort`
 * in sql/util/filesort/filesort.go), stated over values: sorted runs, how
 * far each run has been read, the heap of one pending row per unfinished
 * run, and the rows already output.  The file sorter keeps `MergeInv` as part
 * of its class invariant and takes one merge step (`MergeStepRead` or
 * `MergeStepLast`) per row it outputs.
 */
module MergeState {
  import opened Sorting
  import opened SortRows

  /** An entry of the merge heap (`item`): the run a row was read from, and the row. */
  datatype Item = Item(index: nat, row: Row)

  /** The order of the merge heap (`rowHeap.Less`): by the rows' keys. */
  function ItemLess(byDesc: seq<bool>): (Item, Item) -> bool
  {
    (x: Item, y: Item) => KeyLess(x.row.key, y.row.key, byDesc)
  }

  function ItemRows(items: seq<Item>): (r: seq<Row>)
    ensures |r| == |items|
    ensures forall k :: 0 <= k < |items| ==> r[k] == items[k].row
  {
    seq(|items|, k requires 0 <= k < |items| => items[k].row)
  }

  /** Some heap entry comes from run i. */
  ghost predicate HasEntry(items: seq<Item>, i: nat)
  {
    exists k :: 0 <= k < |items| && items[k].index == i
  }

  /** `pos[i]` rows of run `i` have been read. */
  ghost predicate Positions(runs: seq<seq<Row>>, pos: seq<nat>)
  {
    |pos| == |runs| && forall i :: 0 <= i < |runs| ==> pos[i] <= |runs[i]|
  }

  function Zeros(n: nat): (z: seq<nat>)
    ensures |z| == n && forall i :: 0 <= i < n ==> z[i] == 0
  {
    seq(n, i => 0)
  }

  /** The rows of runs 0 to n - 1 not read yet. */
  ghost function UnreadBelow(runs: seq<seq<Row>>, pos: seq<nat>, n: nat): multiset<Row>
    requires Positions(runs, pos) && n <= |runs|
  {
    if n == 0 then multiset{} else UnreadBelow(runs, pos, n - 1) + multiset(runs[n - 1][pos[n - 1]..])
  }

  /** The rows of the runs not read yet. */
  ghost function Unread(runs: seq<seq<Row>>, pos: seq<nat>): multiset<Row>
    requires Positions(runs, pos)
  {
    UnreadBelow(runs, pos, |runs|)
  }

  /** Each heap entry is the last row read from its run, and runs with rows left have an entry. */
  ghost predicate HeapMatches(runs: seq<seq<Row>>, pos: seq<nat>, heap: seq<Item>)
    requires Positions(runs, pos)
  {
    && (forall k :: 0 <= k < |heap| ==>
          heap[k].index < |runs| && pos[heap[k].index] > 0
          && heap[k].row == runs[heap[k].index][pos[heap[k].index] - 1])
    && (forall k, l :: 0 <= k < l < |heap| ==> heap[k].index != heap[l].index)
    && (forall i :: 0 <= i < |runs| && pos[i] < |runs[i]| ==> HasEntry(heap, i))
  }

  /** No heap entry is less than the last row output. */
  ghost predicate HeapAfter(heap: seq<Item>, emitted: seq<Row>, byDesc: seq<bool>)
  {
    emitted != [] ==> forall k :: 0 <= k < |heap| ==> !KeyLess(heap[k].row.key, emitted[|emitted| - 1].key, byDesc)
  }

  /**
   * The merge invariant: every run sorted, the heap in step with the read
   * positions, the rows output sorted and none of them after a row still to
   * come, and output, heap and unread rows together exactly the rows put in.
   */
  ghost predicate MergeInv(runs: seq<seq<Row>>, pos: seq<nat>, heap: seq<Item>, emitted: seq<Row>,
                           inserted: multiset<Row>, byDesc: seq<bool>)
  {
    && Positions(runs, pos)
    && (forall i :: 0 <= i < |runs| ==> Sorted(runs[i], RowLess(byDesc)))
    && HeapMatches(runs, pos, heap)
    && multiset(emitted) + multiset(ItemRows(heap)) + Unread(runs, pos) == inserted
    && Sorted(emitted, RowLess(byDesc))
    && HeapAfter(heap, emitted, byDesc)
  }

  /** The heap after reading the first row of runs 0 to n - 1: one entry per run. */
  function FirstRows(runs: seq<seq<Row>>, n: nat): (heap: seq<Item>)
    requires n <= |runs| && forall i :: 0 <= i < |runs| ==> runs[i] != []
    ensures |heap| == n && forall k :: 0 <= k < n ==> heap[k] == Item(k, runs[k][0])
  {
    seq(n, k requires 0 <= k < n => Item(k, runs[k][0]))
  }

  /** Read positions after reading the first row of runs 0 to n - 1. */
  function Primed(count: nat, n: nat): (pos: seq<nat>)
    ensures |pos| == count && forall i :: 0 <= i < count ==> pos[i] == if i < n then 1 else 0
  {
    seq(count, i => if i < n then 1 else 0)
  }

  /** Entry m of the heap has no entry less than it. */
  ghost predicate IsMinimal(heap: seq<Item>, m: nat, byDesc: seq<bool>)
  {
    m < |heap| && forall k :: 0 <= k < |heap| ==> !KeyLess(heap[k].row.key, heap[m].row.key, byDesc)
  }
}
