/**
 * The k-way merge's invariant kept and its steps: priming the heap with the
 * first row of every run establishes `MergeInv`, and each output step
 * (`heap.Pop`, then `fetchNextRow` and `heap.Push`) preserves it.
 */
module Merging {
  import opened Sorting
  import opened SortRows
  import opened MergeState

  lemma ItemLessIsStrictWeakOrder(byDesc: seq<bool>)
    ensures StrictWeakOrder(ItemLess(byDesc))
  {
    RowLessIsStrictWeakOrder(byDesc);
    var rl, il := RowLess(byDesc), ItemLess(byDesc);
    assert forall a: Item, b: Item :: il(a, b) == rl(a.row, b.row);
  }

  /** The unread rows of runs 0 to n - 1 depend only on those runs and their positions. */
  lemma {:induction false} UnreadBelowSame(runs: seq<seq<Row>>, pos: seq<nat>, runs': seq<seq<Row>>, pos': seq<nat>, n: nat)
    requires Positions(runs, pos) && Positions(runs', pos') && n <= |runs| && n <= |runs'|
    requires forall i :: 0 <= i < n ==> runs[i] == runs'[i] && pos[i] == pos'[i]
    ensures UnreadBelow(runs, pos, n) == UnreadBelow(runs', pos', n)
  {
    if n > 0 {
      UnreadBelowSame(runs, pos, runs', pos', n - 1);
    }
  }

  /** Adding a run that has not been read adds all its rows to the unread ones. */
  lemma UnreadAppend(runs: seq<seq<Row>>, run: seq<Row>)
    requires Positions(runs, Zeros(|runs|))
    ensures Positions(runs + [run], Zeros(|runs| + 1))
    ensures Unread(runs + [run], Zeros(|runs| + 1)) == Unread(runs, Zeros(|runs|)) + multiset(run)
  {
    var runs', z' := runs + [run], Zeros(|runs| + 1);
    UnreadBelowSame(runs, Zeros(|runs|), runs', z', |runs|);
    assert run[0..] == run;
  }

  /** Reading one more row of run `i` moves that row out of the unread rows of runs 0 to n - 1, for n past i. */
  lemma {:induction false} UnreadBelowAdvance(runs: seq<seq<Row>>, pos: seq<nat>, i: nat, n: nat)
    requires Positions(runs, pos) && i < n <= |runs| && pos[i] < |runs[i]|
    requires Positions(runs, pos[i := pos[i] + 1])
    ensures UnreadBelow(runs, pos, n) == UnreadBelow(runs, pos[i := pos[i] + 1], n) + multiset{runs[i][pos[i]]}
  {
    var pos' := pos[i := pos[i] + 1];
    if n - 1 == i {
      UnreadBelowSame(runs, pos, runs, pos', i);
      var r := runs[i];
      assert r[pos[i]..] == [r[pos[i]]] + r[pos[i] + 1..];
    } else {
      UnreadBelowAdvance(runs, pos, i, n - 1);
    }
  }

  /** Reading one more row of run `i` moves that row out of the unread ones. */
  lemma UnreadAdvance(runs: seq<seq<Row>>, pos: seq<nat>, i: nat)
    requires Positions(runs, pos) && i < |runs| && pos[i] < |runs[i]|
    ensures Positions(runs, pos[i := pos[i] + 1])
    ensures Unread(runs, pos) == Unread(runs, pos[i := pos[i] + 1]) + multiset{runs[i][pos[i]]}
  {
    UnreadBelowAdvance(runs, pos, i, |runs|);
  }

  /** Once every run has been read to its end, nothing of runs 0 to n - 1 is unread. */
  lemma {:induction false} UnreadBelowExhausted(runs: seq<seq<Row>>, pos: seq<nat>, n: nat)
    requires Positions(runs, pos) && n <= |runs|
    requires forall i :: 0 <= i < |runs| ==> pos[i] == |runs[i]|
    ensures UnreadBelow(runs, pos, n) == multiset{}
  {
    if n > 0 {
      UnreadBelowExhausted(runs, pos, n - 1);
    }
  }

  /** With the heap empty, every row put in has been output. */
  lemma MergeDone(runs: seq<seq<Row>>, pos: seq<nat>, emitted: seq<Row>, inserted: multiset<Row>, byDesc: seq<bool>)
    requires MergeInv(runs, pos, [], emitted, inserted, byDesc)
    ensures multiset(emitted) == inserted
  {
    UnreadBelowExhausted(runs, pos, |runs|);
  }

  lemma PrimedNext(count: nat, n: nat)
    requires n < count
    ensures Primed(count, n)[n := 1] == Primed(count, n + 1)
  {
  }

  lemma FirstRowsNext(runs: seq<seq<Row>>, n: nat)
    requires n < |runs| && forall i :: 0 <= i < |runs| ==> runs[i] != []
    ensures multiset(ItemRows(FirstRows(runs, n + 1))) == multiset(ItemRows(FirstRows(runs, n))) + multiset{runs[n][0]}
  {
    assert ItemRows(FirstRows(runs, n + 1)) == ItemRows(FirstRows(runs, n)) + [runs[n][0]];
  }

  /** Reading the first row of run n into the heap keeps every row accounted for. */
  lemma PrimeStep(runs: seq<seq<Row>>, n: nat, inserted: multiset<Row>)
    requires n < |runs| && forall i :: 0 <= i < |runs| ==> runs[i] != []
    requires Positions(runs, Primed(|runs|, n))
    requires multiset(ItemRows(FirstRows(runs, n))) + Unread(runs, Primed(|runs|, n)) == inserted
    ensures Positions(runs, Primed(|runs|, n + 1))
    ensures multiset(ItemRows(FirstRows(runs, n + 1))) + Unread(runs, Primed(|runs|, n + 1)) == inserted
  {
    UnreadAdvance(runs, Primed(|runs|, n), n);
    PrimedNext(|runs|, n);
    FirstRowsNext(runs, n);
  }

  /** Reading the first row of runs 0 to n - 1 into the heap moves exactly those rows out of the unread ones. */
  lemma {:induction false} PrimedAll(runs: seq<seq<Row>>, n: nat)
    requires n <= |runs| && forall i :: 0 <= i < |runs| ==> runs[i] != []
    ensures Positions(runs, Primed(|runs|, n))
    ensures multiset(ItemRows(FirstRows(runs, n))) + Unread(runs, Primed(|runs|, n)) == Unread(runs, Zeros(|runs|))
  {
    if n == 0 {
      assert Primed(|runs|, 0) == Zeros(|runs|);
      assert ItemRows(FirstRows(runs, 0)) == [];
    } else {
      PrimedAll(runs, n - 1);
      PrimeStep(runs, n - 1, Unread(runs, Zeros(|runs|)));
    }
  }

  /** With the first row of every run read, every run has its entry in the heap. */
  lemma FirstRowsMatch(runs: seq<seq<Row>>)
    requires forall i :: 0 <= i < |runs| ==> runs[i] != []
    requires Positions(runs, Primed(|runs|, |runs|))
    ensures HeapMatches(runs, Primed(|runs|, |runs|), FirstRows(runs, |runs|))
  {
    var heap := FirstRows(runs, |runs|);
    forall i | 0 <= i < |runs|
      ensures HasEntry(heap, i)
    {
      assert heap[i].index == i;
    }
  }

  /** Once the first row of every non-empty sorted run is in the heap, the merge invariant holds. */
  lemma MergeStart(runs: seq<seq<Row>>, inserted: multiset<Row>, byDesc: seq<bool>)
    requires forall i :: 0 <= i < |runs| ==> runs[i] != []
    requires forall i :: 0 <= i < |runs| ==> Sorted(runs[i], RowLess(byDesc))
    requires Positions(runs, Primed(|runs|, |runs|))
    requires multiset(ItemRows(FirstRows(runs, |runs|))) + Unread(runs, Primed(|runs|, |runs|)) == inserted
    ensures MergeInv(runs, Primed(|runs|, |runs|), FirstRows(runs, |runs|), [], inserted, byDesc)
  {
    FirstRowsMatch(runs);
    MergeInvIntro(runs, Primed(|runs|, |runs|), FirstRows(runs, |runs|), inserted, byDesc);
  }

  /** Before any output, sorted runs and a heap in step with the read positions satisfy the merge invariant. */
  lemma MergeInvIntro(runs: seq<seq<Row>>, pos: seq<nat>, heap: seq<Item>, inserted: multiset<Row>, byDesc: seq<bool>)
    requires forall i :: 0 <= i < |runs| ==> Sorted(runs[i], RowLess(byDesc))
    requires Positions(runs, pos) && HeapMatches(runs, pos, heap)
    requires multiset(ItemRows(heap)) + Unread(runs, pos) == inserted
    ensures MergeInv(runs, pos, heap, [], inserted, byDesc)
  {
    var none: seq<Row> := [];
    assert multiset(none) + multiset(ItemRows(heap)) + Unread(runs, pos) == inserted;
  }

  /** No heap entry is less than the one `MinIndex` picks. */
  lemma MinItem(heap: seq<Item>, byDesc: seq<bool>)
    requires heap != []
    ensures IsMinimal(heap, MinIndex(heap, ItemLess(byDesc)), byDesc)
  {
    ItemLessIsStrictWeakOrder(byDesc);
    MinIndexIsMinimal(heap, ItemLess(byDesc));
  }

  /** The rows of the heap without entry m are the heap's rows without row m. */
  lemma ItemRowsRemoveAt(heap: seq<Item>, m: nat)
    requires m < |heap|
    ensures multiset(ItemRows(RemoveAt(heap, m))) + multiset{heap[m].row} == multiset(ItemRows(heap))
  {
    assert ItemRows(RemoveAt(heap, m)) == RemoveAt(ItemRows(heap), m);
  }

  /** Entry k of the heap without entry m. */
  lemma RemoveAtIndex(heap: seq<Item>, m: nat, k: nat)
    requires m < |heap| && k < |heap| - 1
    ensures RemoveAt(heap, m)[k] == heap[if k < m then k else k + 1]
  {
  }

  /** Outputting a row no earlier output exceeds keeps the output sorted. */
  lemma AppendSorted(emitted: seq<Row>, x: Row, byDesc: seq<bool>)
    requires Sorted(emitted, RowLess(byDesc))
    requires emitted != [] ==> !KeyLess(x.key, emitted[|emitted| - 1].key, byDesc)
    ensures Sorted(emitted + [x], RowLess(byDesc))
  {
    var last := |emitted| - 1;
    forall e | 0 <= e < |emitted|
      ensures !KeyLess(x.key, emitted[e].key, byDesc)
    {
      if e < last {
        assert !RowLess(byDesc)(emitted[last], emitted[e]);
        KeyNotLessTransitive(x.key, emitted[last].key, emitted[e].key, byDesc);
      }
    }
  }

  /** Dropping entry m leaves distinct runs in the heap, none of them m's. */
  lemma DropDistinct(heap: seq<Item>, m: nat)
    requires m < |heap| && forall k, l :: 0 <= k < l < |heap| ==> heap[k].index != heap[l].index
    ensures forall k, l :: 0 <= k < l < |RemoveAt(heap, m)| ==> RemoveAt(heap, m)[k].index != RemoveAt(heap, m)[l].index
    ensures forall k :: 0 <= k < |RemoveAt(heap, m)| ==> RemoveAt(heap, m)[k].index != heap[m].index
  {
    var rest := RemoveAt(heap, m);
    forall k, l | 0 <= k < l < |rest|
      ensures rest[k].index != rest[l].index
    {
      RemoveAtIndex(heap, m, k);
      RemoveAtIndex(heap, m, l);
    }
    forall k | 0 <= k < |rest|
      ensures rest[k].index != heap[m].index
    {
      RemoveAtIndex(heap, m, k);
    }
  }

  /** A run with an entry other than m still has one after m is dropped. */
  lemma DropKeepsEntry(heap: seq<Item>, m: nat, j: nat)
    requires m < |heap| && HasEntry(heap, j) && heap[m].index != j
    ensures HasEntry(RemoveAt(heap, m), j)
  {
    var k :| 0 <= k < |heap| && heap[k].index == j;
    var k' := if k < m then k else k - 1;
    RemoveAtIndex(heap, m, k');
  }

  /** Dropping the entry of an exhausted run keeps the heap in step with the read positions. */
  lemma HeapMatchesDrop(runs: seq<seq<Row>>, pos: seq<nat>, heap: seq<Item>, m: nat)
    requires Positions(runs, pos) && HeapMatches(runs, pos, heap) && m < |heap|
    requires pos[heap[m].index] == |runs[heap[m].index]|
    ensures HeapMatches(runs, pos, RemoveAt(heap, m))
  {
    var rest := RemoveAt(heap, m);
    DropDistinct(heap, m);
    forall k | 0 <= k < |rest|
      ensures rest[k].index < |runs| && pos[rest[k].index] > 0
              && rest[k].row == runs[rest[k].index][pos[rest[k].index] - 1]
    {
      RemoveAtIndex(heap, m, k);
    }
    forall j | 0 <= j < |runs| && pos[j] < |runs[j]|
      ensures HasEntry(rest, j)
    {
      DropKeepsEntry(heap, m, j);
    }
  }

  /** Replacing the entry of a run by the run's next row keeps the heap in step with the advanced positions. */
  lemma HeapMatchesReplace(runs: seq<seq<Row>>, pos: seq<nat>, heap: seq<Item>, m: nat)
    requires Positions(runs, pos) && HeapMatches(runs, pos, heap) && m < |heap|
    requires pos[heap[m].index] < |runs[heap[m].index]|
    ensures var i := heap[m].index;
            && Positions(runs, pos[i := pos[i] + 1])
            && HeapMatches(runs, pos[i := pos[i] + 1], RemoveAt(heap, m) + [Item(i, runs[i][pos[i]])])
  {
    var i := heap[m].index;
    var rest := RemoveAt(heap, m);
    var pos' := pos[i := pos[i] + 1];
    var heap' := rest + [Item(i, runs[i][pos[i]])];
    DropDistinct(heap, m);
    forall k | 0 <= k < |heap'|
      ensures heap'[k].index < |runs| && pos'[heap'[k].index] > 0
              && heap'[k].row == runs[heap'[k].index][pos'[heap'[k].index] - 1]
    {
      if k < |rest| {
        RemoveAtIndex(heap, m, k);
      }
    }
    forall j | 0 <= j < |runs| && pos'[j] < |runs[j]|
      ensures HasEntry(heap', j)
    {
      if j == i {
        assert heap'[|rest|].index == i;
      } else {
        DropKeepsEntry(heap, m, j);
        var k :| 0 <= k < |rest| && rest[k].index == j;
        assert heap'[k] == rest[k];
      }
    }
  }

  /** The row output is at least the previous output, and no remaining entry is less than it. */
  lemma OutputOrder(heap: seq<Item>, emitted: seq<Row>, byDesc: seq<bool>, m: nat)
    requires IsMinimal(heap, m, byDesc) && Sorted(emitted, RowLess(byDesc)) && HeapAfter(heap, emitted, byDesc)
    ensures Sorted(emitted + [heap[m].row], RowLess(byDesc))
    ensures forall k :: 0 <= k < |RemoveAt(heap, m)| ==> !KeyLess(RemoveAt(heap, m)[k].row.key, heap[m].row.key, byDesc)
  {
    AppendSorted(emitted, heap[m].row, byDesc);
    forall k | 0 <= k < |RemoveAt(heap, m)|
      ensures !KeyLess(RemoveAt(heap, m)[k].row.key, heap[m].row.key, byDesc)
    {
      RemoveAtIndex(heap, m, k);
    }
  }

  /**
   * One output step when the run of a least heap entry m has rows left:
   * output the entry's row and read the run's next row into the heap.
   */
  lemma MergeStepRead(runs: seq<seq<Row>>, pos: seq<nat>, heap: seq<Item>, emitted: seq<Row>,
                      inserted: multiset<Row>, byDesc: seq<bool>, m: nat)
    requires MergeInv(runs, pos, heap, emitted, inserted, byDesc)
    requires IsMinimal(heap, m, byDesc)
    requires pos[heap[m].index] < |runs[heap[m].index]|
    ensures var i := heap[m].index;
            && Positions(runs, pos[i := pos[i] + 1])
            && MergeInv(runs, pos[i := pos[i] + 1], RemoveAt(heap, m) + [Item(i, runs[i][pos[i]])],
                        emitted + [heap[m].row], inserted, byDesc)
  {
    var it := heap[m];
    var i := it.index;
    var rest := RemoveAt(heap, m);
    var next := runs[i][pos[i]];
    var heap' := rest + [Item(i, next)];
    UnreadAdvance(runs, pos, i);
    HeapMatchesReplace(runs, pos, heap, m);
    ItemRowsRemoveAt(heap, m);
    assert ItemRows(heap') == ItemRows(rest) + [next];
    OutputOrder(heap, emitted, byDesc, m);
    // the row read next from run i is at least the row output, since the run is sorted
    assert !RowLess(byDesc)(runs[i][pos[i]], runs[i][pos[i] - 1]);
    assert HeapAfter(heap', emitted + [it.row], byDesc);
  }

  /**
   * One output step when the run of a least heap entry m is exhausted:
   * output the entry's row; the heap shrinks.
   */
  lemma MergeStepLast(runs: seq<seq<Row>>, pos: seq<nat>, heap: seq<Item>, emitted: seq<Row>,
                      inserted: multiset<Row>, byDesc: seq<bool>, m: nat)
    requires MergeInv(runs, pos, heap, emitted, inserted, byDesc)
    requires IsMinimal(heap, m, byDesc)
    requires pos[heap[m].index] == |runs[heap[m].index]|
    ensures MergeInv(runs, pos, RemoveAt(heap, m), emitted + [heap[m].row], inserted, byDesc)
  {
    HeapMatchesDrop(runs, pos, heap, m);
    ItemRowsRemoveAt(heap, m);
    OutputOrder(heap, emitted, byDesc, m);
  }
}
