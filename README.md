# gleam, modelled in Dafny

This project models the sequential core of gleam, a distributed data
processing system written in Go, together with the small SQL engine that
ships with it.

- **External sorter** (`sql/util/filesort`). `FileSorter` is a state
  machine with an input phase, an output phase and a closed phase. In the
  input phase it fills a bounded buffer and spills each full buffer, sorted,
  into a numbered run file. Each run-file record is an 8-byte big-endian
  length followed by a body. In the output phase it either sorts the buffer
  once and hands it out, or runs a k-way heap merge over the run files. The
  sorter is a class whose methods are proved against step functions on a
  state value. The lemmas prove that every step keeps the invariant, that
  the output is sorted, and that it is exactly the multiset of rows put in.
- **Range algebra** (`sql/plan/range.go`). This covers range points and
  their strict order, and the point lists built from comparisons,
  `IS [NOT] TRUE/FALSE/NULL`, `IN` and `LIKE`. It also covers union and
  intersection by counting, and the conversion of points into index ranges
  and int64 table ranges. Every builder gives disjoint whole ranges, and
  `Build` admits exactly the values for which the filter can hold
  (`Passes`). Union and intersection admit the union and the intersection
  of their inputs' values (`Member`).
- **Pipeline executor** (`distributed/executor/executor.go`). This covers
  stage wiring, pipe-mode propagation, the readers and writers of each
  stage, the subprocess command line and the three-attempt retry rule.
- **SQL expression layer.** This covers:
  - the rewriter's expression stack;
  - column pruning of logical plans;
  - table-column lookups and validators;
  - function arity and equality;
  - constant folding;
  - number-prefix scanning.
- **Dataflow builders.** These are the sort options, and the reducer's key
  fields and arguments.

Integers in the source are int64; they are modelled as `int` wherever no
overflow or truncation can occur. Two places are written out: the int64
wrap-around in `buildTableRanges`, and the 32-bit `rune` conversion of the
digit bound in `getValidPrefix`.

The datum library, the key codec, `CompareDatum` and the function bodies of
the SQL registry are not in this model. They are replaced as follows:
- Datums are a concrete datatype (`Null | MinNotNull | Int | Bytes | MaxValue`)
  under a concrete total order (`Datums.Compare`).
- The codec is a concrete encoding with a proved round trip.
- Evaluation, the file system, the subprocess and the select over error
  channels are passed in as parameters: an oracle function, a `disk` map,
  `run` and `event`.

## Model

| member | source | states |
|---|---|---|
| Datums.Compare | sql/plan/range.go:75-81 | a three-way comparison (-1, 0 or 1), zero exactly for equal datums |
| Datums.CompareAntisymmetric | sql/plan/range.go:75-81 | `Compare(a, b) == -Compare(b, a)` |
| Datums.CompareTransitive | sql/plan/range.go:75-81 | `Compare` is transitive, so with antisymmetry it is a total order |
| Datums.CompareBytes | sql/plan/range.go:75-81 | a three-way comparison of byte strings, zero exactly for equal strings |
| Encoding.BigEndianRoundTrip | sql/util/filesort/filesort.go:253-274 | reading back the 8-byte big-endian length header of a record gives the length written |
| Encoding.BigEndianRoundTripBytes | sql/util/filesort/filesort.go:321-359 | re-encoding the number a header denotes gives the header's bytes back |
| Encoding.NatToString | sql/util/filesort/filesort.go:226-230 | `strconv.Itoa` of a file count: a non-empty string of decimal digits, one digit exactly below 10 |
| Encoding.DecimalRoundTrip | sql/util/filesort/filesort.go:226-230 | the decimal text of a number parses back to that number |
| Encoding.NatToStringInjective | sql/util/filesort/filesort.go:226-230 | distinct file counts have distinct decimal texts |
| Numerals.IntToString | distributed/executor/executor.go:218-223 | `fmt.Sprint` of an int: a non-empty well-formed signed decimal text |
| Numerals.IntRoundTrip | distributed/executor/executor.go:218-223 | the text of an integer parses back to it |
| Numerals.SplitJoin | flow/dataset_reduce.go:58-61 | splitting a comma-joined list of comma-free parts gives the parts back |
| Numerals.Split | flow/dataset_reduce.go:58-61 | splitting gives at least one part |
| Numerals.IntToStringInjective | flow/dataset_reduce.go:52-57 | distinct integers have distinct texts |
| Text.Lower | sql/table/column.go:53-60 | lower-casing keeps the length and lowers exactly the ASCII capitals |
| Text.LowerIdempotent | sql/table/column.go:201-214 | lower-casing twice is lower-casing once |
| DatumCodec.Uint64BytesRoundTrip | sql/util/filesort/filesort.go:253-274 | the 8-byte form of a uint64 reads back to it |
| DatumCodec.DecodeEncodeDatum | sql/util/filesort/filesort.go:321-359 | a datum decodes back from its encoding, with the number of bytes it took, whatever follows it |
| DatumCodec.DecodeEncodeDatums | sql/util/filesort/filesort.go:321-359 | an encoded sequence of datums decodes back to itself |
| DatumCodec.EncodeDatumsAppend | sql/util/filesort/filesort.go:253-274 | encoding a concatenation is the concatenation of the encodings |
| DatumCodec.EncodeDatumsSize | sql/util/filesort/filesort.go:253-274 | the encoding of datums has the size computed for them |
| RunFiles.EncodeRecord | sql/util/filesort/filesort.go:253-274 | a record is longer than its 8-byte length header |
| RunFiles.ReadRow | sql/util/filesort/filesort.go:321-359 | `fetchNextRow`: end of file exactly when the offset is at or past the end; a fetched row has the configured key and value sizes, and the next offset lies past its header and within the file |
| RunFiles.FetchRecord | sql/util/filesort/filesort.go:321-359 | reading a record at its offset gives back the row stored there, and the offset just past it |
| RunFiles.RunSplit | sql/util/filesort/filesort.go:253-282 | a run file is the records before the i-th, the i-th record, then the rest |
| RunFiles.EncodeRun | sql/util/filesort/filesort.go:253-282 | the run file of the rows: their records one after another (read back by `FetchRecord` and `RunSplit`) |
| RunFiles.ConcatenationPrefix | sql/util/filesort/filesort.go:253-282 | a run file written so far is a prefix of the finished one |
| RunFiles.RowDatumsParts | sql/util/filesort/filesort.go:253-274 | a row is stored as its key, then its value, then its handle |
| RunFiles.RecordSlices | sql/util/filesort/filesort.go:321-359 | inside a file a record is its 8-byte length, then its body |
| SortRows.LessThan | sql/util/filesort/filesort.go:50-71 | the loop of `lessThan` returns exactly the lexicographic order with per-column descending flags |
| SortRows.KeyCompareAntisymmetric | sql/util/filesort/filesort.go:50-71 | swapping the keys negates the directed comparison |
| SortRows.KeyCompareTransitive | sql/util/filesort/filesort.go:50-71 | the directed comparison is transitive |
| SortRows.RowLessIsStrictWeakOrder | sql/util/filesort/filesort.go:50-71 | the row order is irreflexive, transitive and its incomparability is transitive, as `sort.Sort` and `container/heap` require |
| SortRows.KeyNotLessTransitive | sql/util/filesort/filesort.go:50-71 | "not less than" is transitive, so incomparable keys stay incomparable |
| SortRows.SortedKeysAgree | sql/util/filesort/filesort.go:240 | any two sorted orders of the same rows hold, position by position, rows whose keys compare equal, so only rows with equal keys trade places |
| SortRows.KeyCompare | sql/util/filesort/filesort.go:50-71 | a three-way result; antisymmetric and transitive by `KeyCompareAntisymmetric` and `KeyCompareTransitive` |
| SortRows.RowLess | sql/util/filesort/filesort.go:216-224 | rows ordered by key only; a strict weak order by `RowLessIsStrictWeakOrder` |
| Sorting.SortSorted | sql/util/filesort/filesort.go:240 | `sort.Sort` yields a sorted permutation of the buffer |
| Sorting.SortedUnique | sql/plan/range.go:255-256 | under a strict weak order that is also total, any two sorted permutations of the same elements coincide |
| Sorting.SortedEquivalent | sql/util/filesort/filesort.go:240 | `sort.Sort` is not stable, but under a strict weak order any two sorted permutations of the same elements agree position by position up to equivalence: neither is less than the other |
| Sorting.CountLess | sql/util/filesort/filesort.go:240 | if the first n elements of one list are less than a value and none of another list from position m on is, and both hold the same elements, then n <= m |
| Sorting.PrefixLess | sql/util/filesort/filesort.go:240 | in a sorted list, every element up to one that is less than a value is less than it too |
| Sorting.MinIndexIsMinimal | sql/util/filesort/filesort.go:80-102 | the entry the heap pops is not greater than any other entry |
| Sorting.Sort | sql/util/filesort/filesort.go:240 | the sorted buffer is a permutation of the buffer |
| Sorting.RemoveAt | sql/util/filesort/filesort.go:96-102 | removing a heap entry keeps the others in order and removes exactly that entry from the multiset |
| MergeState.FirstRows | sql/util/filesort/filesort.go:465-483 | after priming runs 0 to n-1 the heap has one entry per non-empty run, carrying its first row |
| MergeState.Primed | sql/util/filesort/filesort.go:465-483 | after priming n runs, each of them has read one row and the others none |
| Merging.PrimedAll | sql/util/filesort/filesort.go:465-483 | priming moves exactly the first rows of the runs out of the unread rows |
| Merging.MergeStart | sql/util/filesort/filesort.go:446-486 | once every run has its first row in the heap, the merge invariant holds |
| Merging.MinItem | sql/util/filesort/filesort.go:80-89 | no heap entry is less than the one popped |
| Merging.OutputOrder | sql/util/filesort/filesort.go:487-513 | the row output is at least the previous output, and no remaining entry is less than it |
| Merging.MergeStepRead | sql/util/filesort/filesort.go:487-513 | popping an entry whose run has rows left outputs its row and refills the heap from the same run only, keeping every row accounted for |
| Merging.MergeStepLast | sql/util/filesort/filesort.go:487-513 | popping an entry whose run is used up outputs its row and shrinks the heap |
| Merging.MergeDone | sql/util/filesort/filesort.go:487-513 | with the heap empty every row put in has been output |
| Merging.ItemLessIsStrictWeakOrder | sql/util/filesort/filesort.go:80-88 | the heap's order on entries is a strict weak order |
| Merging.UnreadAdvance | sql/util/filesort/filesort.go:487-513 | reading the next row of a run moves exactly that row out of the unread rows |
| FileSort.BuildError | sql/util/filesort/filesort.go:166-189 | no error exactly when the context is set, the key size equals the number of direction flags, the key, value and buffer sizes are positive and the directory exists; each failing check gives its own message, in the source's order |
| FileSort.Builder.Build | sql/util/filesort/filesort.go:166-207 | a sorter exactly when there is no error; it is fresh, has the builder's settings, is in its initial input state and satisfies the sorter invariant (`Valid`) |
| FileSort.EncodeRows | sql/util/filesort/filesort.go:253-274 | the output buffer is the run-file encoding of the sorted rows, record by record |
| FileSort.FileSorter.GetUniqueFileName | sql/util/filesort/filesort.go:226-230 | the name is `tmpDir/<fileCount>` and the count goes up by one |
| FileSort.FileSorter.FlushToFile | sql/util/filesort/filesort.go:233-284 | the new state is `Flushed`: sorted buffer written as a new numbered run file, the file recorded, the buffer emptied |
| FileSort.FileSorter.WriteRun | sql/util/filesort/filesort.go:233-284 | the run is written under the next numbered file name, the name recorded and the file count raised by one; nothing else changes |
| FileSort.FileSorter.Input | sql/util/filesort/filesort.go:288-318 | state and error are those of `InputStep` (see `SorterStates.InputKeeps`); a valid sorter stays valid |
| FileSort.FileSorter.FetchNextRow | sql/util/filesort/filesort.go:321-360 | state and outcome are those of `ReadNext` on the file's read offset |
| FileSort.FileSorter.HeapPop | sql/util/filesort/filesort.go:96-102 | state and entry are those of `PopMin`: a least entry leaves the heap |
| FileSort.FileSorter.HeapPush | sql/util/filesort/filesort.go:91-94 | the row read from run `index` joins the heap |
| FileSort.FileSorter.OpenAllFiles | sql/util/filesort/filesort.go:362-371 | every run file is open at its start |
| FileSort.FileSorter.CloseAllFiles | sql/util/filesort/filesort.go:373-385 | `os.RemoveAll(tmpDir)`: exactly the files under the work directory leave the disk, every other file is kept with its contents |
| FileSort.FileSorter.Close | sql/util/filesort/filesort.go:388-399 | state and error are those of `CloseStep` (see `SorterStates.CloseKeeps`); a valid sorter stays valid |
| FileSort.FileSorter.InternalSort | sql/util/filesort/filesort.go:429-443 | state and output are those of `InternalStep`: sort once, then the row at the cursor, then the end |
| FileSort.FileSorter.PrimeHeap | sql/util/filesort/filesort.go:465-483 | state and error are those of `Prime` from file 0 |
| FileSort.FileSorter.StartMerge | sql/util/filesort/filesort.go:446-486 | state and error are those of `Started`: flush the rest, open the files, prime the heap |
| FileSort.FileSorter.MergeNext | sql/util/filesort/filesort.go:487-513 | state and output are those of `MergeStep` |
| FileSort.FileSorter.ExternalSort | sql/util/filesort/filesort.go:446-514 | start on the first call, then one merge step |
| FileSort.FileSorter.Output | sql/util/filesort/filesort.go:402-426 | state and output are those of `OutputStep` (see `SorterStates.OutputKeeps`); a valid sorter stays valid |
| FileSort.Builder.SetSC | sql/util/filesort/filesort.go:135-139 | records whether a statement context is set and returns the builder |
| FileSort.Builder.SetSchema | sql/util/filesort/filesort.go:141-146 | records the key and value sizes and returns the builder |
| FileSort.Builder.SetBuf | sql/util/filesort/filesort.go:148-152 | records the buffer size and returns the builder |
| FileSort.Builder.SetDesc | sql/util/filesort/filesort.go:154-158 | records the direction flags and returns the builder |
| FileSort.Builder.SetDir | sql/util/filesort/filesort.go:160-163 | records the work directory and returns the builder |
| SorterStates.JoinPathInjective | sql/util/filesort/filesort.go:226-230 | distinct elements joined to one directory give distinct paths |
| SorterStates.RunFileNameInjective | sql/util/filesort/filesort.go:226-230 | distinct file counts give distinct run file names |
| SorterStates.InputError | sql/util/filesort/filesort.go:288-302 | no error exactly when the sorter is open, not yet in output, and the key and value lengths are the configured ones; a closed sorter gives "FileSorter has been closed" |
| SorterStates.FetchFromRun | sql/util/filesort/filesort.go:321-359 | the i-th record of a run file reads back as the i-th row, with the next offset |
| SorterStates.FetchAtEnd | sql/util/filesort/filesort.go:321-330 | reading past the last record reports end of file |
| SorterStates.Prime | sql/util/filesort/filesort.go:465-483 | priming changes only the heap, the read offsets and the positions, and heap entries keep pointing at run files |
| SorterStates.InitialInv | sql/util/filesort/filesort.go:166-207 | a new sorter with accepted settings satisfies the invariant |
| SorterStates.FlushKeeps | sql/util/filesort/filesort.go:233-284 | flushing a non-empty buffer in the input phase keeps the invariant (each run file stores its rows sorted, and files plus buffer hold every row put in) |
| SorterStates.InputKeeps | sql/util/filesort/filesort.go:288-318 | `Input` keeps the invariant (buffer never above `bufSize`); an error changes nothing; success adds exactly the row to the rows put in |
| SorterStates.CloseKeeps | sql/util/filesort/filesort.go:373-399 | `Close` fails exactly when already closed, and then changes nothing; otherwise the sorter is closed, the buffer is empty, exactly the files under the work directory are removed, so no run file is left, and the invariant holds |
| SorterStates.RemoveAll | sql/util/filesort/filesort.go:380 | a file stays exactly when it is not under the directory, with unchanged contents |
| SorterStates.RunFileInDir | sql/util/filesort/filesort.go:226-230 | every run-file name lies under the work directory |
| SorterStates.FlushedFields | sql/util/filesort/filesort.go:233-284 | a flush sorts the buffer, writes it under the next run-file name, records the name and the run and empties the buffer; the written rows still fit the record format |
| SorterStates.InternalKeeps | sql/util/filesort/filesort.go:429-443 | without run files the invariant and the rows put in are kept, the outputs so far are sorted, `Out` adds its row, and `End` comes with the outputs being exactly the rows put in |
| SorterStates.PrimeRuns | sql/util/filesort/filesort.go:465-483 | over stored runs priming never fails, puts the first row of every run in the heap, and leaves each read offset just past the first record |
| SorterStates.StartedKeeps | sql/util/filesort/filesort.go:446-486 | starting the merge never fails, keeps the invariant and the rows put in, and has output nothing yet |
| SorterStates.MergeStepKeeps | sql/util/filesort/filesort.go:487-513 | a merge step never fails and keeps the invariant; the outputs stay sorted, `Out` adds its row, and `End` means every row put in has been output |
| SorterStates.OutputKeeps | sql/util/filesort/filesort.go:402-426 | `Output` fails exactly when closed, and then changes nothing; otherwise the outputs so far are sorted, each call adds one row, and at the end the outputs are exactly the multiset of rows put in |
| SorterStates.EndRepeats | sql/util/filesort/filesort.go:402-443 | once `Output` has reported the end, every later call reports the end again and changes nothing |
| SorterStates.Initial | sql/util/filesort/filesort.go:192-207 | a new sorter is open, in its input phase, with nothing put in |
| SorterStates.AppendKeeps | sql/util/filesort/filesort.go:304-317 | appending a row to a buffer below its size keeps the invariant and adds the row to the rows put in |
| SorterStates.SortKeeps | sql/util/filesort/filesort.go:429-435 | sorting the buffer on the first output call keeps the invariant |
| SorterStates.CursorKeeps | sql/util/filesort/filesort.go:436-443 | handing out the row at the cursor keeps the invariant and the outputs sorted |
| SorterStates.InternalDone | sql/util/filesort/filesort.go:436-443 | once the cursor passes the buffer, the outputs are exactly the rows put in, sorted |
| SorterStates.ExternalKeeps | sql/util/filesort/filesort.go:446-514 | an external step never fails and keeps the invariant; the outputs stay sorted, `Out` adds its row, and `End` means every row put in has been output |
| SorterStates.InternalEndRepeats | sql/util/filesort/filesort.go:429-443 | after the internal sort's end, the next call reports the end again and changes nothing |
| SorterStates.MergeEndRepeats | sql/util/filesort/filesort.go:446-514 | after the merge's end, the next call reports the end again and changes nothing |
| SorterStates.ReadNext | sql/util/filesort/filesort.go:321-360 | reading a row moves only that file's read offset |
| RangePoints.EqualValueLessIsTieRank | sql/plan/range.go:83-92 | at equal values the order is end-exclusive < start-inclusive < end-inclusive < start-exclusive |
| RangePoints.PointLessTotal | sql/plan/range.go:75-92 | two points are ordered at most one way, and two distinct points exactly one way |
| RangePoints.PointLessTransitive | sql/plan/range.go:75-92 | `rangePointLess` is transitive |
| RangePoints.PointOrderIsStrictWeakOrder | sql/plan/range.go:75-92 | the point order is a strict order fit for `sort.Sort` |
| RangePoints.PointOrderIsTotal | sql/plan/range.go:75-92 | any two distinct points are ordered |
| RangePoints.PointSortUnique | sql/plan/range.go:255-256 | whatever algorithm `sort.Sort` uses, the sorted points are the ones `Sort` gives |
| RangePoints.MemberPairs | sql/plan/range.go:450-471 | a value lies in a point list exactly when one of its pairs (2i, 2i+1) admits it |
| RangePoints.TieRankInjective | sql/plan/range.go:83-92 | two points share a tie rank exactly when both are starts or both ends, with the same exclusion |
| RangePoints.PairMember | sql/plan/range.go:450-471 | a value lies in one pair exactly when the pair admits it |
| RangePoints.FullRangeHoldsAll | sql/plan/range.go:103-114 | the full range admits every datum, NULL included |
| RangeBuild.BuildFromBinOp | sql/plan/range.go:144-200 | the points of a comparison come in start/end pairs (the values they admit are `BinOpMember`) |
| RangeBuild.BinOpMember | sql/plan/range.go:144-200 | a value lies in the points of a comparison exactly when it and the constant are not NULL and the comparison holds |
| RangeBuild.MirrorHolds | sql/plan/range.go:149-158 | mirroring the operator while swapping the operands keeps the comparison's meaning |
| RangeBuild.BuildFromColumn | sql/plan/range.go:133-142 | a bare column admits exactly the non-null non-zero values |
| RangeBuild.BuildFromIsTrue | sql/plan/range.go:202-221 | `IS TRUE` admits exactly non-null non-zero values; `IS NOT TRUE` admits NULL and zero |
| RangeBuild.BuildFromIsFalse | sql/plan/range.go:223-240 | `IS FALSE` admits exactly zero; `IS NOT FALSE` every other value, NULL included |
| RangeBuild.BuildFromIsNull | sql/plan/range.go:355-402 | `IS NULL` admits exactly NULL; its negation exactly the non-null values |
| RangeBuild.SentinelBounds | sql/plan/range.go:133-142 | MinNotNull is below every non-null datum and above NULL; MaxValue is above every datum |
| RangeBuild.OpPoints | sql/plan/range.go:160-199 | each operator's points come in start/end pairs |
| RangeBuilding.InPointsAlternate | sql/plan/range.go:242-285 | the points of `IN`, sorted with repeats removed, alternate start/end, stay sorted and come from the list values (the values they admit are `InMember`) |
| RangeBuilding.DedupeSorted | sql/plan/range.go:265-284 | removing repeats from sorted points keeps them sorted |
| RangeBuilding.RangeBuilder.BuildFromIn | sql/plan/range.go:242-285 | with constant items: one `[v, v]` per item, sorted, repeats removed, error unchanged, admitting exactly the listed values; otherwise the full range and a not-constant error; disjoint whole ranges either way |
| RangeBuilding.RangeBuilder.CollectInPoints | sql/plan/range.go:245-259 | `[v, v]` per item, in order, or an error when an item is not a constant |
| RangeBuilding.RangeBuilder.RemoveRepeats | sql/plan/range.go:265-284 | the loop yields `Dedupe`, which keeps sorted points sorted (`DedupeSorted`) |
| RangeBuilding.RangeBuilder.BuildFromLike | sql/plan/range.go:287-353 | the points of the pattern's literal prefix, one range; an unreadable pattern records an error and admits everything |
| RangeBuilding.RangeBuilder.Merge | sql/plan/range.go:404-445 | union or intersection by counting: the result is `Merged`, sorted, and disjoint whole ranges when both inputs are whole ranges; over disjoint whole ranges it admits a value exactly when either input (union) or both inputs (intersection) admit it |
| RangeBuilding.MergedProperties | sql/plan/range.go:404-445 | merging disjoint whole ranges gives sorted, disjoint whole ranges admitting a value exactly when either input (union) or both inputs (intersection) do |
| RangeBuilding.RangeBuilder.BuildFromConstant | sql/plan/range.go:116-131 | the full range exactly for a non-null true constant, no range otherwise, so it admits every value or none; an unreadable truth value records its error |
| RangeBuilding.RangeBuilder.BuildFromNot | sql/plan/range.go:355-375 | `NOT` over `IS TRUE/FALSE/NULL` is the negated test; `NOT IN` and `NOT LIKE` record an error and admit everything; disjoint whole ranges |
| RangeBuilding.RangeBuilder.BuildFromScalarFunc | sql/plan/range.go:377-402 | disjoint whole ranges admitting exactly the values for which the call can hold (`Passes`): comparisons by `BinOpMember`, `AND`/`OR` by intersection and union of their operands, `IS` tests and `IN` by their own lemmas; unknown functions admit nothing; a recorded error is kept |
| RangeBuilding.RangeBuilder.Build | sql/plan/range.go:103-114 | a column, a call or a constant; disjoint whole ranges admitting exactly the values for which the filter can hold (`Passes`); a recorded error is never cleared |
| RangeBuilding.RangeBuilder.InPasses | sql/plan/range.go:242-285 | the points of `IN` admit exactly the values for which `IN` can hold: the listed values, or every value when an item is not a constant |
| RangeBuilding.InMember | sql/plan/range.go:242-285 | over constant items, the points of `IN` admit a value exactly when it is one of the items |
| RangeBuilding.DedupeMember | sql/plan/range.go:264-284 | over sorted points, the points with repeats removed admit a value exactly when the last point at or before it starts a range |
| RangeBuilding.InBuilt | sql/plan/range.go:242-285 | over constant items, the points of `IN` are disjoint whole ranges admitting exactly the listed values |
| RangeBuilding.InDisjoint | sql/plan/range.go:242-285 | the ranges of `IN` over constants are disjoint |
| RangeBuilding.InLastBefore | sql/plan/range.go:255-285 | in the sorted points of `IN`, the last point at or before a value is a start exactly when that value is listed |
| RangeBuilding.ListedLast | sql/plan/range.go:255-285 | for a listed value, the last sorted point at or before it is its own start |
| RangeBuilding.LastListed | sql/plan/range.go:255-285 | when the last sorted point at or before a value is a start, the value is listed |
| RangeBuilding.DedupeBefore | sql/plan/range.go:260-285 | over sorted points, the points of the deduplicated list at or before a value are those kept on reaching it |
| RangeBuilding.DedupeExtends | sql/plan/range.go:265-284 | the repeat-removal loop only appends, and only points read after the cut |
| RangeBuilding.InPointsValue | sql/plan/range.go:245-253 | every point of `IN` is at the value of one of the items |
| RangeBuilding.InPointsStart | sql/plan/range.go:245-253 | the start `[v` of every item is among the points of `IN` |
| RangeBuilding.LastEnd | sql/plan/range.go:255-285 | the greatest sorted point of `IN` is an end |
| RangeBuilding.OpPointsDisjoint | sql/plan/range.go:160-199 | the points of a comparison with a non-null constant are disjoint ranges, whatever the constant |
| RangeBuilding.BinOpDisjoint | sql/plan/range.go:144-200 | `buildFormBinOp` gives disjoint ranges |
| RangeBuilding.ColumnDisjoint | sql/plan/range.go:133-142 | a bare column gives disjoint ranges |
| RangeBuilding.FullRangeDisjoint | sql/plan/range.go:103-114 | the full range is one range |
| RangeBuilding.IsDisjoint | sql/plan/range.go:202-240 | the ranges of `IS [NOT] TRUE/FALSE/NULL` are disjoint |
| RangeBuilding.LikeDisjoint | sql/plan/range.go:287-353 | the range of a `LIKE` pattern is one range, its start below its end |
| RangeBuilding.InPoints | sql/plan/range.go:245-259 | two points per list item |
| RangeBuilding.DedupeShape | sql/plan/range.go:265-284 | the kept points alternate start/end, are input points, and are odd in number exactly when the last input point is a start |
| RangeBuilding.RangeBuilder.HasRepeat | sql/plan/range.go:265-271 | a repeat is found exactly when removing repeats would change the points |
| RangeMerge.ScanShape | sql/plan/range.go:412-445 | the running count is the balance so far; kept points alternate from a start, are input points, and are odd in number exactly when the count is at or above the level |
| RangeMerge.MergeAlternates | sql/plan/range.go:412-445 | merged points alternate start/end from a start and are points of the inputs (the values they admit are `RangeMembership.MergeMember`) |
| RangeMerge.MergeSorted | sql/plan/range.go:412-445 | merged points are sorted by `rangePointLess` |
| RangeMerge.MergeWhole | sql/plan/range.go:412-445 | merging whole ranges gives an even-length list |
| RangeMerge.BalancePermutation | sql/plan/range.go:412-420 | sorting the joined lists does not change their start/end balance |
| RangeMerge.AlternatingBalance | sql/plan/range.go:412-445 | whole ranges have as many starts as ends |
| RangeMerge.ScanSorted | sql/plan/range.go:421-444 | the scan of sorted points keeps them sorted |
| RangeMerge.Scan | sql/plan/range.go:421-444 | the running count is the balance of the points read; the kept points alternate from a start, come from the points read, and are odd in number exactly when the count is at or above the level |
| RangeMerge.Merged | sql/plan/range.go:412-445 | every merged point is a point of one of the inputs; what the result admits is `RangeMembership.MergeMember` |
| RangeMembership.Before | sql/plan/range.go:412-445 | the points that come at or before a value, in order; no more than the points |
| RangeMembership.BelowPosition | sql/plan/range.go:75-92 | a point comes at or before a value exactly when its value is smaller, or equal with an excluded end or included start |
| RangeMembership.BelowMonotone | sql/plan/range.go:75-92 | a point sorting before one that comes at or before a value comes at or before it too |
| RangeMembership.BeforeBelow | sql/plan/range.go:412-445 | every point kept by `Before` comes at or before the value |
| RangeMembership.BeforeConcat | sql/plan/range.go:412-445 | `Before` of a concatenation is the concatenation of `Before` |
| RangeMembership.BeforeCount | sql/plan/range.go:412-445 | `Before` keeps each point as often as the list holds it, when it comes at or before the value, and never otherwise |
| RangeMembership.OpenPermutation | sql/plan/range.go:412-420 | the number of ranges open at a value does not depend on the order of the points |
| RangeMembership.OpenConcat | sql/plan/range.go:412-420 | the ranges open at a value in two lists joined add up |
| RangeMembership.SortedBefore | sql/plan/range.go:412-445 | over sorted points, `Before` is a prefix, and a point is in it exactly when it comes at or before the value |
| RangeMembership.SortedCut | sql/plan/range.go:412-445 | over sorted points, a cut with every point before it at or before a value and none after it is `Before` |
| RangeMembership.MemberCut | sql/plan/range.go:450-471 | sorted whole ranges admit a value exactly when an odd number of points come at or before it |
| RangeMembership.PrefixBalance | sql/plan/range.go:412-445 | a prefix of alternating points has one more start than end exactly when its length is odd |
| RangeMembership.SortedDisjoint | sql/plan/range.go:412-445 | sorted whole ranges are disjoint: at most one is open at any value, and one exactly where they admit it |
| RangeMembership.ScanExtends | sql/plan/range.go:421-444 | the counting scan only appends, and only points read after the cut |
| RangeMembership.ScanMember | sql/plan/range.go:421-444 | the scan of sorted points admits a value exactly when at least the required number of ranges are open at it |
| RangeMembership.ScanBefore | sql/plan/range.go:421-444 | the scanned points at or before a value are those the scan keeps on reaching it |
| RangeMembership.MergeOpen | sql/plan/range.go:412-445 | merged whole ranges admit a value exactly when the ranges of both inputs open at it reach one (union) or two (intersection) |
| RangeMembership.MergeDisjoint | sql/plan/range.go:412-445 | merging whole ranges gives disjoint ranges |
| RangeMembership.MergeMember | sql/plan/range.go:404-445 | over disjoint whole ranges, the union admits a value exactly when either input does, the intersection exactly when both do |
| RangeMembership.MergeSortedMember | sql/plan/range.go:404-445 | the same for sorted whole ranges |
| RangeMembership.InputSorted | sql/plan/range.go:412-414 | the joined lists, sorted, are sorted and hold the same points |
| RangeMembership.PairOpen | sql/plan/range.go:412-445 | for one start and one end, the ranges open at a value and whether it is admitted both follow from which of the two come at or before it |
| RangeMembership.PairDisjoint | sql/plan/range.go:103-114 | a start sorting before an end is one disjoint range |
| RangeMembership.TwoPairsOpen | sql/plan/range.go:160-199 | the ranges open at a value over two pairs add up |
| RangeMembership.EmptyDisjoint | sql/plan/range.go:116-131 | no points are disjoint ranges |
| RangeMembership.BelowNotAfter | sql/plan/range.go:75-92 | a point at or before a value does not sort after the included start at that value |
| RangeMembership.LastNotAfter | sql/plan/range.go:255-256 | in sorted points nothing before the n-th sorts after it |
| RangeLike.ScanPrefix | sql/plan/range.go:293-332 | the prefix loop yields `LikePrefix`, whose soundness is `PrefixFromSound` |
| RangeLike.PrefixFromSound | sql/plan/range.go:293-332 | every string the pattern matches starts with the gathered prefix; longer than it exactly when the scan stopped at `_` |
| RangeLike.Increment | sql/plan/range.go:333-352 | the carry increment keeps the length and is `None` exactly when every byte is 0xff |
| RangeLike.IncrementIsSuccessor | sql/plan/range.go:333-352 | read as a big-endian number, the increment is one more |
| RangeLike.UpperBound | sql/plan/range.go:333-352 | an excluded end: MaxValue when every byte is 0xff, otherwise the increment of the prefix |
| RangeLike.LikePoints | sql/plan/range.go:287-353 | the points of a pattern come in start/end pairs (the values they admit are `LikeSound`) |
| RangeLike.LikeSound | sql/plan/range.go:287-353 | every string the pattern matches lies in the range built for it |
| RangeLike.PrefixRangeSound | sql/plan/range.go:333-352 | an extension of the prefix lies between the prefix and its increment |
| RangeLike.IncrementAbove | sql/plan/range.go:333-352 | the increment agrees with the prefix up to one byte, which it raises |
| RangeLike.CarryStops | sql/plan/range.go:333-352 | the carry loop stops at the last byte below 0xff, raising it and zeroing the bytes after it |
| RangeLike.PrefixCompare | sql/plan/range.go:287-353 | a prefix sorts at or before its extensions, strictly before the longer ones |
| RangeConvert.StartInt | sql/plan/range.go:570-588 | a converted start lies in [MinInt64, MaxInt64 + 1]; the upper end is an excluded start at MaxInt64, which the source wraps |
| RangeConvert.EndInt | sql/plan/range.go:589-607 | a converted end lies in [MinInt64 - 1, MaxInt64]; the lower end is an excluded end at MinInt64, which the source wraps |
| RangeConvert.BuildTableRanges | sql/plan/range.go:567-614 | the corrected loop (the int64 wrap fixed; as written it is `TableRangesAsWritten`) yields `TableRanges`, as `StepError`, `StepRange` and `TableRangesMember` characterise it |
| RangeConvert.StepError | sql/plan/range.go:574-603 | a conversion error at a pair is the result of the whole conversion |
| RangeConvert.ErrorAt | sql/plan/range.go:574-603 | after a conversion error at pair k, every later stopping point gives the ranges so far and that error |
| RangeConvert.PairError | sql/plan/range.go:570-603 | a failed start or, after a converted start, a failed end is the error of the pair |
| RangeConvert.PairConverts | sql/plan/range.go:570-603 | a pair of supported bounds converts without error |
| RangeConvert.PairsConvert | sql/plan/range.go:567-614 | when every pair of bounds converts, the conversion loop records no error |
| RangeConvert.StepRange | sql/plan/range.go:608-612 | each pair adds its range exactly when its start is at most its end |
| RangeConvert.PairExact | sql/plan/range.go:567-614 | a pair of supported points converts to a range holding exactly the handles the pair admits |
| RangeConvert.TableRangesMember | sql/plan/range.go:567-614 | over supported points: no error, and a handle lies in the table ranges exactly when it lies in the point ranges |
| RangeConvert.TableRanges | sql/plan/range.go:567-614 | corrected `buildTableRanges`, characterised by `TableRangesMember`, `StepError` and `StepRange` |
| RangeConvert.TableRangesAsWritten | sql/plan/range.go:567-614 | `buildTableRanges` as written, with the int64 wrap; shown wrong by `StartWrapFinding` and `EndWrapFinding` |
| RangeConvert.StartWrapFinding | sql/plan/range.go:586-588 | as written, `id > MaxInt64` becomes the whole table; corrected, it is empty, as the points say |
| RangeConvert.EndWrapFinding | sql/plan/range.go:605-607 | as written, `id < MinInt64` becomes the whole table; corrected, it is empty |
| RangeConvert.AppendIndexRange | sql/plan/range.go:535-565 | the loop yields `IndexRangesOf` from `origin` |
| RangeConvert.BuildIndexRanges | sql/plan/range.go:450-471 | the loop yields `IndexRangesOf` with no columns; each range has one datum on each side |
| RangeConvert.IndexRangeFrom | sql/plan/range.go:450-471 | every index range comes from a kept pair, extending `origin` |
| RangeConvert.AppendAllShape | sql/plan/range.go:522-533 | each appended range keeps the original bounds as its prefix and adds exactly one datum on each side |
| RangeConvert.AppendAllNoPoints | sql/plan/range.go:522-533 | without points the ranges come back unchanged |
| RangeConvert.ToInt64 | sql/plan/range.go:578-603 | an integer datum converts to itself |
| RangeConvert.PairRange | sql/plan/range.go:608-612 | corrected, a pair gives a range exactly when its start is at most its end, with those bounds |
| RangeConvert.ErrorStops | sql/plan/range.go:574-603 | after an error further pairs change nothing |
| RangeConvert.TableRangesNoError | sql/plan/range.go:567-614 | points of integer kinds never give a conversion error |
| RangeConvert.TableRangeFrom | sql/plan/range.go:567-614 | every table range comes from one pair |
| RangeConvert.TableRangeOf | sql/plan/range.go:567-614 | every non-empty pair range is among the table ranges |
| RangeConvert.StartIntAdmits | sql/plan/range.go:570-588 | a handle is at or above the converted start exactly when the start point admits it |
| RangeConvert.EndIntAdmits | sql/plan/range.go:589-607 | a handle is at or below the converted end exactly when the end point admits it |
| RangeConvert.Extend | sql/plan/range.go:549-562 | an index range is extended by one datum on each side with the points' exclusion flags |
| RangeConvert.IndexRangeOf | sql/plan/range.go:450-471 | every kept pair gives one of the index ranges |
| RangeConvert.AppendIndexRanges | sql/plan/range.go:522-533 | the loop yields `AppendAll` |
| Executing.PrevIsPipe | distributed/executor/executor.go:94-98 | stage k runs after a pipe exactly when k > 0 and stage k-1 has a pipe script; false after a stage without script |
| Executing.Launches | distributed/executor/executor.go:71-99 | one launch per instruction, in order; stage k+1 reads the piper stage k writes; only stage 0 is first and only stage n-1 last |
| Executing.ReadersFor | distributed/executor/executor.go:129-149 | a later stage gets exactly one reader, its input piper; the first one reader per input shard, in order |
| Executing.WritersFor | distributed/executor/executor.go:150-170 | an earlier stage gets exactly one writer, its output piper; the last one writer per output shard, in order, with the reader count |
| Executing.SetupReaders | distributed/executor/executor.go:129-149 | the loop yields `ReadersFor` |
| Executing.SetupWriters | distributed/executor/executor.go:150-170 | the loop yields `WritersFor` |
| Executing.PipelineConnected | distributed/executor/executor.go:71-99 | every stage but the last writes exactly the one piper the next stage reads |
| Executing.Wrapped | distributed/executor/executor.go:195-200 | each reader wrapped into a row reader, order kept |
| Executing.WrapReaders | distributed/executor/executor.go:195-200 | the loop yields `Wrapped` |
| Executing.CommandFlagsRoundTrip | distributed/executor/executor.go:218-223 | the flags are `-gleam.executor addr -flow.hashcode h -flow.stepId s -flow.taskId t`, and each value reads back |
| Executing.Base | distributed/executor/executor.go:226-227 | `filepath.Base`: "." for an empty path, "/" for slashes only, otherwise a slash-free last element |
| Executing.BaseOfElement | distributed/executor/executor.go:226-227 | the base of `dir/name` followed by any number of slashes is `name` |
| Executing.JoinPath | distributed/executor/executor.go:227-228 | the name alone under an empty directory, otherwise `dir/name` |
| Executing.RetryCommand | distributed/executor/executor.go:233-246 | one to three attempts; every earlier attempt failed before reading input; stops early only on success or after reading input; the error and the stat's input counter are the last attempt's |
| Executing.RetryStopsUnique | distributed/executor/executor.go:233-246 | the attempts and the error are determined by the subprocess runs |
| Executing.ExeErrorOf | distributed/executor/executor.go:201-249 | an error is sent exactly for a failing function, a missing script, or a command whose last attempt failed |
| Executing.EventError | distributed/executor/executor.go:111-126 | completion gives nil; an event from an error channel gives its error |
| Executing.Executor.LaunchStages | distributed/executor/executor.go:71-99 | launches are `Launches`; one fresh stat per instruction, in order, with its step and task ids |
| Executing.Executor.ExecuteInstructionSet | distributed/executor/executor.go:71-126 | the stages are launched, the error is that of the first event, and the executor is cancelled exactly when the error is not nil |
| Executing.Executor.PrepareCommand | distributed/executor/executor.go:218-229 | the args gain the executor flags, then `-gleam.profiling` exactly when profiling; the path is the directory joined with the base name |
| Executing.Executor.ExecuteInstruction | distributed/executor/executor.go:180-252 | a function runs with readers wrapped exactly after a pipe; no script is the "no script provided" case; only a non-pipe script's command line changes; a command is retried by the retry rule |
| Executing.RetryAfterInput | distributed/executor/executor.go:233-246 | a first attempt that read input is the only one; the command fails exactly when its last attempt does |
| ExpressionRewriting.RowArgSmaller | sql/plan/expression_rewriter.go:109-116 | a column of a row is smaller than the row |
| ExpressionRewriting.BinaryOpFunction | sql/plan/expression_rewriter.go:119-135 | two single columns give one call; different column counts give the operand-columns error |
| ExpressionRewriting.BinaryOpShapes | sql/plan/expression_rewriter.go:99-135 | the comparison succeeds exactly when both operands have the same column structure at every nesting level |
| ExpressionRewriting.ColumnOpsStep | sql/plan/expression_rewriter.go:126-134 | the first n column comparisons succeed when the first n-1 and the n-th do |
| ExpressionRewriting.BinaryOutcome | sql/plan/expression_rewriter.go:711-742 | `=`, `!=`, `<=>` go to the column-wise comparison; `<`, `<=`, `>`, `>=` need equal lengths; other operators need two single columns; a success is a call of the lower-cased operator |
| ExpressionRewriting.NotTo | sql/plan/expression_rewriter.go:744-761 | the call wrapped in `not` exactly when negated; fails exactly when the registry refuses the call |
| ExpressionRewriting.UnaryCall | sql/plan/expression_rewriter.go:687-709 | unary minus, bit negation and NOT are always built over one argument |
| ExpressionRewriting.PredicateCall | sql/plan/expression_rewriter.go:763-795 | `IS [NOT] NULL/TRUE/FALSE` over one operand are always built |
| ExpressionRewriting.InCall | sql/plan/expression_rewriter.go:797-813 | `[NOT] IN` over the operand and items is always built |
| ExpressionRewriting.LikeCall | sql/plan/expression_rewriter.go:866-876 | `[NOT] LIKE` over operand, pattern and escape is always built |
| ExpressionRewriting.RegexpCall | sql/plan/expression_rewriter.go:878-887 | `[NOT] REGEXP` is always built |
| ExpressionRewriting.RowCall | sql/plan/expression_rewriter.go:889-903 | a row is built exactly when it has two columns or more |
| ExpressionRewriting.EqCall | sql/plan/expression_rewriter.go:833-845 | `value = condition` of a CASE is always built |
| ExpressionRewriting.CaseCall | sql/plan/expression_rewriter.go:815-864 | the `case` call is built exactly when it has an argument |
| ExpressionRewriting.BetweenCall | sql/plan/expression_rewriter.go:905-936 | `(e >= lo) and (e <= hi)`, wrapped in `not` for NOT BETWEEN, and always built |
| ExpressionRewriting.WhenPairs | sql/plan/expression_rewriter.go:833-845 | two arguments per WHEN clause |
| ExpressionRewriting.DepthNonNegative | sql/plan/expression_rewriter.go:578-636 | in a balanced walk the stack depth never goes below zero |
| ExpressionRewriting.Finish | sql/plan/expression_rewriter.go:74-82 | a recorded error wins; no result exactly for an empty stack outside scalar mode; a result exactly for one single-column translation, which is constant-folded; otherwise the context-length error |
| ExpressionRewriting.ExpressionRewriter.Unary | sql/plan/expression_rewriter.go:687-709 | `+a` changes nothing; other unary operators need one column and replace the top in place, keeping the depth |
| ExpressionRewriting.ExpressionRewriter.Binary | sql/plan/expression_rewriter.go:711-742 | the top two translations become one; on an error the stack is unchanged and the error recorded |
| ExpressionRewriting.ExpressionRewriter.Predicate | sql/plan/expression_rewriter.go:763-795 | a one-column top becomes `op(a)`, negated for IS NOT; otherwise the operand-columns error |
| ExpressionRewriting.ExpressionRewriter.Position | sql/plan/expression_rewriter.go:774-780 | `ORDER BY n` pushes the n-th schema column, counted from 1, or an out-of-range error |
| ExpressionRewriting.ExpressionRewriter.InList | sql/plan/expression_rewriter.go:797-813 | every item must match the operand's column count; the last k+1 translations become one |
| ExpressionRewriting.ExpressionRewriter.CaseWhen | sql/plan/expression_rewriter.go:815-864 | pops 2·|when|, plus one for ELSE, plus one for the value; pushes one `case` call |
| ExpressionRewriting.ExpressionRewriter.WhenArgs | sql/plan/expression_rewriter.go:833-845 | with a CASE value each condition is compared with a clone of the value |
| ExpressionRewriting.ExpressionRewriter.LikePattern | sql/plan/expression_rewriter.go:866-876 | `like(a, pattern, escape)` over single columns, negated for NOT LIKE |
| ExpressionRewriting.ExpressionRewriter.RegexpPattern | sql/plan/expression_rewriter.go:878-887 | `regexp(a, pattern)` over single columns, negated for NOT REGEXP |
| ExpressionRewriting.ExpressionRewriter.Row | sql/plan/expression_rewriter.go:889-903 | with two columns or more the top `length` translations become a row; fewer gives the parameter-count error |
| ExpressionRewriting.ExpressionRewriter.Between | sql/plan/expression_rewriter.go:905-936 | three single columns become `(e >= lo) and (e <= hi)`, negated for NOT BETWEEN |
| ExpressionRewriting.ExpressionRewriter.FuncCall | sql/plan/expression_rewriter.go:938-958 | arguments must be single columns; then the call replaces them, or the registry's error is recorded |
| ExpressionRewriting.ExpressionRewriter.CastTop | sql/plan/expression_rewriter.go:606-612 | a single-column top becomes a cast of itself |
| ExpressionRewriting.ExpressionRewriter.ColumnName | sql/plan/expression_rewriter.go:960-983 | a column of the schema, a correlated column of an outer schema, or the ambiguous- or unknown-column error |
| ExpressionRewriting.ExpressionRewriter.Leave | sql/plan/expression_rewriter.go:150-636 | nothing once an error is recorded; an aggregate pushes the schema column `aggrMap` gives it, or records "Can't appear aggrFunctions"; a column name in `colMapper` pushes its column; `VALUES(c)` pushes the values function; otherwise, when no error arises, the node's operands are replaced by what it produces |
| ExpressionRewriting.ExpressionRewriter.Walk | sql/plan/expression_rewriter.go:58-73 | without an error the stack depth after the walk is the walk's depth |
| ExpressionRewriting.ExpressionRewriter.Rewrite | sql/plan/expression_rewriter.go:58-85 | the result is `Finish` of the stack and error the walk leaves, the walk including what `Enter` pushes for aggregates, mapped columns and `VALUES` |
| ExpressionRewriting.FromCall | sql/plan/expression_rewriter.go:119-135 | a built call goes through and a registry error becomes a call failure |
| ExpressionRewriting.RegisteredCall | sql/expression/scalar_function.go:65-81 | a registered name with an accepted argument count always gives the call |
| ExpressionRewriting.ColumnOps | sql/plan/expression_rewriter.go:126-134 | the column-wise comparisons give one call per column |
| ExpressionRewriting.CaseArgs | sql/plan/expression_rewriter.go:833-858 | the arguments of `case` are as many as the WHEN, THEN and ELSE parts |
| ExpressionRewriting.PositionOf | sql/plan/expression_rewriter.go:774-780 | a position resolves exactly when it is from 1 to the schema length, to that column |
| ExpressionRewriting.ExpressionRewriter.CaseReduce | sql/plan/expression_rewriter.go:846-863 | the CASE parts, and the value when present, become one `case` call |
| ExpressionRewriting.ExpressionRewriter.CaseCallArgs | sql/plan/expression_rewriter.go:833-858 | the loop yields `CaseArgs` |
| ExpressionRewriting.ExpressionRewriter.CallArgs | sql/plan/expression_rewriter.go:947-958 | the call over the top arguments is pushed, or the registry's error recorded |
| ExpressionRewriting.ExpressionRewriter.LeaveOperand | sql/plan/expression_rewriter.go:150-197 | an aggregate pushes its `aggrMap` column or records "Can't appear aggrFunctions" leaving the stack unchanged; a mapped column name pushes its `colMapper` column; `VALUES(c)` pushes the values function of column c; every other operand replaces its operands by what it produces |
| ExpressionRewriting.ExpressionRewriter.LeaveOperator | sql/plan/expression_rewriter.go:578-636 | leaving an operator node replaces its operands by what it produces |
| ExpressionRewriting.ExpressionRewriter.LeaveValueOperator | sql/plan/expression_rewriter.go:578-636 | leaving a call, unary or binary operator, BETWEEN, CASE or cast replaces its operands by its translation |
| ExpressionRewriting.ExpressionRewriter.LeaveTestOperator | sql/plan/expression_rewriter.go:578-636 | leaving LIKE, REGEXP, a row or an IS test replaces its operands by its translation |
| ExpressionRewriting.ExpressionRewriter.LeaveAt | sql/plan/expression_rewriter.go:58-73 | without an error the stack depth after node i is the walk's depth there |
| ExpressionRewriting.AggregatePlusOne | sql/plan/expression_rewriter.go:151-162 | an aggregate plus a constant is a balanced walk leaving one translation on the stack |
| ColumnPruning.UsedMask | sql/plan/column_pruning.go:22-32 | a mask as long as the schema, true exactly at the first position of each used column |
| ColumnPruning.FirstPosition | sql/plan/column_pruning.go:22-32 | the first position of a column is the only one with no earlier copy |
| ColumnPruning.GetUsedList | sql/plan/column_pruning.go:22-32 | a fresh array equal to `UsedMask`; a used column the schema lacks is skipped |
| ColumnPruning.UsedListAsWrittenAgrees | sql/plan/column_pruning.go:22-32 | as written, the mask is `UsedMask` exactly when every used column is in the schema, and an index panic otherwise |
| ColumnPruning.UsedListAsWritten | sql/plan/column_pruning.go:22-32 | `getUsedList` as written, with the index panic; compared with `UsedMask` by `UsedListAsWrittenAgrees` |
| ColumnPruning.UsedListPanicsOnMissingColumn | sql/plan/column_pruning.go:26-29 | one used column missing from an empty schema panics as written |
| ColumnPruning.ExprHasSetVarMeaning | sql/plan/column_pruning.go:35-49 | true exactly when no `setvar` call occurs anywhere in the expression |
| ColumnPruning.ExprHasSetVar | sql/plan/column_pruning.go:35-49 | `exprHasSetVar`, characterised by `ExprHasSetVarMeaning` |
| ColumnPruning.KeptAt | sql/plan/column_pruning.go:52-140 | splicing keeps exactly the marked positions, in order, so lists spliced with one mask stay in lockstep |
| ColumnPruning.KeptMembers | sql/plan/column_pruning.go:52-140 | a spliced list holds exactly the entries at marked positions |
| ColumnPruning.Splice | sql/plan/column_pruning.go:132-140 | the reverse-index loop leaves exactly the marked entries, in order |
| ColumnPruning.SpliceBoth | sql/plan/column_pruning.go:79-98 | two parallel lists lose the same positions |
| ColumnPruning.ProjectionKeepMeaning | sql/plan/column_pruning.go:52-66 | an output stays exactly when the parent uses it or its expression calls `setvar` |
| ColumnPruning.UnionChildColsAt | sql/plan/column_pruning.go:111-129 | each union child is asked for its own columns at the used positions, in order |
| ColumnPruning.UnionChildCols | sql/plan/column_pruning.go:111-129 | the used columns of a union child, characterised by `UnionChildColsAt` |
| ColumnPruning.RouteLeft | sql/plan/column_pruning.go:188-194 | exactly the needed columns the left schema holds |
| ColumnPruning.RouteRight | sql/plan/column_pruning.go:188-194 | exactly the needed columns the left schema lacks and the right schema holds |
| ColumnPruning.RouteColumns | sql/plan/column_pruning.go:188-194 | the routing loop yields `RouteLeft` and `RouteRight` |
| ColumnPruning.AppendColumns | sql/plan/column_pruning.go:60-65 | the columns of each expression appended in turn |
| ColumnPruning.AppendAggColumns | sql/plan/column_pruning.go:90-97 | the columns of every aggregate argument appended in turn |
| ColumnPruning.ChildCols | sql/plan/column_pruning.go:115-126 | a union child's columns at the used positions |
| ColumnPruning.Prune | sql/plan/column_pruning.go:52-215 | `PruneColumns` for every plan node: the result is `Pruned` |
| ColumnPruning.Pruned | sql/plan/column_pruning.go:52-215 | the pruned plan, characterised by `PruneAligned`, `PruneConsistent`, `PruneSchema` and `PruneIgnoresParent` |
| ColumnPruning.PruneProjection | sql/plan/column_pruning.go:52-66 | the projection case of `Pruned` |
| ColumnPruning.PruneAggregation | sql/plan/column_pruning.go:79-98 | the aggregation case of `Pruned` |
| ColumnPruning.PruneUnion | sql/plan/column_pruning.go:111-129 | the union case of `Pruned` |
| ColumnPruning.PruneJoin | sql/plan/column_pruning.go:172-207 | the join case of `Pruned` |
| ColumnPruning.PruneAligned | sql/plan/column_pruning.go:52-215 | pruning keeps every node's parallel lists aligned with its schema |
| ColumnPruning.PruneConsistent | sql/plan/column_pruning.go:69-76 | a selection or sort still shows its child's schema and a join's schema is still built from its children's, at every node |
| ColumnPruning.PruneSchema | sql/plan/column_pruning.go:52-215 | a used column of the schema survives, and the pruned schema holds only columns of the old one |
| ColumnPruning.UsedColumnMarked | sql/plan/column_pruning.go:22-32 | a used column of the schema is marked at its first position |
| ColumnPruning.PositionsFrom | sql/plan/column_pruning.go:52-140 | the marked positions, ascending and complete |
| ColumnPruning.MaskKeeps | sql/plan/column_pruning.go:132-140 | a keep mask covering the used mask keeps every used column and adds none |
| ColumnPruning.KeptLockstep | sql/plan/column_pruning.go:79-98 | lists spliced with one mask stay the same length |
| ColumnPruning.PruneJoinSchema | sql/plan/column_pruning.go:197-206 | a join keeps the used columns of its schema and adds none |
| ColumnPruning.PruneIgnoresParent | sql/plan/column_pruning.go:143-169 | a table dual, exists or insert node is pruned the same whatever its parent uses; a table dual is left as is |
| Columns.ColumnStringForm | sql/table/column.go:36-45 | name, space, type, then ` AUTO_INCREMENT` and ` NOT NULL` for the flags set, in that order |
| Columns.ColumnString | sql/table/column.go:36-45 | `String`, characterised by `ColumnStringForm` |
| Columns.FirstMatch | sql/table/column.go:53-60 | the first position whose name equals `name` ignoring case, or the length |
| Columns.FindCol | sql/table/column.go:53-60 | a column exactly when some name matches ignoring case, and then the first match |
| Columns.FindCols | sql/table/column.go:68-80 | success exactly when every name is found; matches in the order of the names; otherwise the first unknown name's error |
| Columns.OnUpdatePositions | sql/table/column.go:83-92 | the positions with the on-update flag, ascending and complete |
| Columns.FindOnUpdateCols | sql/table/column.go:83-92 | exactly the on-update columns, order kept |
| Columns.CheckOnce | sql/table/column.go:201-214 | no error exactly when the lower-cased names are distinct; otherwise it names the first repeat |
| Columns.CheckNotNullValue | sql/table/column.go:217-222 | an error exactly when a NOT NULL column gets NULL |
| Columns.CheckNotNull | sql/table/column.go:230-237 | no error exactly when every column accepts its value; otherwise the first refusing column's error |
| Columns.TypeDesc | sql/table/column.go:140-146 | the compact type, plus ` UNSIGNED` exactly when the flag is set |
| Columns.KeyText | sql/table/column.go:158-167 | PRI, else UNI, else MUL, else empty, each exactly under its flags |
| Columns.ExtraText | sql/table/column.go:168-174 | auto_increment over the on-update text, else empty, each exactly under its flags |
| Columns.NullText | sql/table/column.go:152-157 | NO exactly for a NOT NULL column |
| Columns.NewColDesc | sql/table/column.go:149-190 | the row's fields from those texts; the default kept exactly when the column may have one; fixed privileges; empty comment |
| Columns.ColDescFieldNames | sql/table/column.go:193-198 | nine names when full, six otherwise |
| Columns.ShortFieldNames | sql/table/column.go:193-198 | the short list is the full one without Collation, Privileges and Comment |
| ExprUtil.ExtractColumnsComplete | sql/expression/util.go:26-36 | the extracted columns are exactly the column leaves, left to right |
| ExprUtil.ExtractColumns | sql/expression/util.go:26-36 | the column leaves from left to right (complete and in order by `ExtractColumnsComplete`) |
| ExprUtil.ColumnIndex | sql/expression/util.go:44-46 | the first schema position holding the column, or -1 exactly when it is absent |
| ExprUtil.SubstituteColumn | sql/expression/util.go:42-48 | a schema column becomes the expression at its first position; another column stays |
| ExprUtil.SubstituteCastArg | sql/expression/util.go:49-54 | a cast gets only its first argument substituted |
| ExprUtil.SubstituteUnusedIdentity | sql/expression/util.go:40-62 | substituting for columns an expression does not use changes nothing |
| ExprUtil.SubstituteColumns | sql/expression/util.go:40-62 | every column of the result is an unsubstituted original column or comes from a replacement |
| ExprUtil.ColumnSubstitute | sql/expression/util.go:40-62 | `ColumnSubstitute`, characterised by `SubstituteColumn`, `SubstituteCastArg`, `SubstituteUnusedIdentity` and `SubstituteColumns` |
| ExprUtil.GetValidPrefix | sql/expression/util.go:113-149 | the scan loop yields `ValidPrefix` |
| ExprUtil.ValidPrefixDigits | sql/expression/util.go:113-149 | for bases 2 to 36: optional sign and the longest run of digits below the base, `+` dropped; the next character is no such digit |
| ExprUtil.ValidPrefixIsPrefix | sql/expression/util.go:145-148 | the result is a prefix of the text, or of the text after its leading `+` |
| ExprUtil.ValidPrefix | sql/expression/util.go:113-149 | what `getValidPrefix` returns, characterised by `ValidPrefixDigits` and `ValidPrefixIsPrefix` |
| ExprUtil.ValidPrefixCorrected | sql/expression/util.go:113-149 | corrected: bases below 2 give the empty prefix, as the function's documentation states; proved by `ValidPrefixCorrectedDigits` |
| ExprUtil.UpperBound | sql/expression/util.go:118-125 | the digit bound of a base, a rune wrapped to 32 bits; it admits exactly the digits below the base for bases 2 to 36 (`AcceptedDigitIsBelowBase`) |
| ExprUtil.Rune | sql/expression/util.go:118-125 | `rune(x)`: a signed 32-bit value equal to `x` modulo 2^32 |
| ExprUtil.ValidPrefixWrappedBaseAcceptsZ | sql/expression/util.go:118-125 | as written, base -4294967230 wraps to the bound `y` and accepts "Z" |
| ExprUtil.ValidPrefixBaseOneAcceptsSeven | sql/expression/util.go:118-122 | as written, base 1 accepts "7" |
| ExprUtil.ValidPrefixCorrectedDigits | sql/expression/util.go:113-149 | corrected, for every base, each character of the result is a sign or a digit of the base |
| ExprUtil.DigitRun | sql/expression/util.go:127-144 | the digit run stays within the text |
| ExprUtil.DigitRunMaximal | sql/expression/util.go:127-144 | the digit run is accepted digits and ends at the first character that is not one |
| ExprUtil.AcceptedDigitIsBelowBase | sql/expression/util.go:118-125 | for bases 2 to 36 the bound accepts exactly the alphanumerics whose value is below the base |
| ExprUtil.WellFormedCast | sql/expression/scalar_function.go:65-81 | a cast has exactly one argument |
| Builtins.AcceptsArgsInterval | sql/expression/builtin.go:109-115 | a class accepting n arguments accepts every count from `minArgs` up to n |
| Builtins.AcceptsArgs | sql/expression/builtin.go:109-115 | `verifyArgs`: a count from `minArgs` to `maxArgs`, with no upper bound when `maxArgs` is -1 (an interval by `AcceptsArgsInterval`) |
| Builtins.Funcs | sql/expression/builtin.go:127-284 | the registry `funcs`: the arities by `RowArity`, `LikeArity`, `CaseInArity`, `ComparisonArity` and `LogicArity` |
| Builtins.RowArity | sql/expression/builtin.go:281 | `row` takes two arguments or more |
| Builtins.LikeArity | sql/expression/builtin.go:278 | `like` takes exactly three |
| Builtins.CaseInArity | sql/expression/builtin.go:275-280 | `case` and `in` take one or more |
| Builtins.ComparisonArity | sql/expression/builtin.go:252-258 | every comparison takes exactly two |
| Builtins.LogicArity | sql/expression/builtin.go:130-277 | `and`/`or` take two, `not`, `istrue`, `isfalse`, `isnull` one |
| Builtins.FirstFailureIsFirst | sql/expression/builtin.go:45-53 | every argument before the first failure evaluates without error |
| Builtins.BaseBuiltinFunc.constructor | sql/expression/builtin.go:36-43 | deterministic by default, with one value slot per argument |
| Builtins.BaseBuiltinFunc.EvalArgs | sql/expression/builtin.go:45-53 | slots are filled in argument order up to the first error, which is returned |
| Builtins.FirstFailure | sql/expression/builtin.go:45-53 | the first argument from `from` whose evaluation fails, or the argument count |
| ScalarFunctions.NewFunction | sql/expression/scalar_function.go:65-81 | an unknown name or a refused argument count is an error; otherwise a call with that name, type and arguments, deterministic unless its class says otherwise (see `NewFunctionDeterminism`) |
| ScalarFunctions.NewFunctionDeterminism | sql/expression/builtin.go:92-95 | a built call is deterministic exactly when its function is not `rand`, the class that overrides the default |
| ScalarFunctions.RandUnequal | sql/expression/builtin.go:55-58 | `rand` with at most one argument is built non-deterministic, so `Equal` holds neither with itself nor with a retyped copy |
| ScalarFunctions.NewFunctionWellFormed | sql/expression/scalar_function.go:65-81 | a built call over well-formed arguments is well-formed |
| ScalarFunctions.Clone | sql/expression/scalar_function.go:93-106 | a non-call is kept; a cast is rebuilt over a clone of its argument; other calls are rebuilt through `NewFunction`, so their determinism is that of their class |
| ScalarFunctions.CloneIdentity | sql/expression/scalar_function.go:93-106 | the clone of a well-formed expression equals it, non-deterministic `rand` calls included |
| ScalarFunctions.ExprEqualIsErasedEquality | sql/expression/scalar_function.go:114-123 | `Equal` is equality up to types and signatures, false for nil or non-deterministic calls and different argument counts |
| ScalarFunctions.ExprEqualSymmetric | sql/expression/scalar_function.go:114-123 | `Equal` is symmetric |
| ScalarFunctions.ExprEqualReflexive | sql/expression/scalar_function.go:114-123 | an expression equals itself exactly when it holds no nil and no non-deterministic call |
| ScalarFunctions.ExprEqual | sql/expression/scalar_function.go:114-123 | `Equal`, characterised by `ExprEqualIsErasedEquality` |
| ScalarFunctions.IsCorrelatedIffCols | sql/expression/scalar_function.go:126-133 | correlated exactly when some correlated column occurs |
| ScalarFunctions.IsCorrelated | sql/expression/scalar_function.go:126-133 | `IsCorrelated`, characterised by `IsCorrelatedIffCols` |
| ScalarFunctions.DecorrelateCols | sql/expression/scalar_function.go:136-141 | decorrelating removes exactly the correlated columns the schema has |
| ScalarFunctions.DecorrelateIsCorrelated | sql/expression/scalar_function.go:136-141 | afterwards the expression is correlated exactly when it refers outside the schema |
| ScalarFunctions.Decorrelate | sql/expression/scalar_function.go:136-141 | `Decorrelate`, characterised by `DecorrelateCols` and `DecorrelateIsCorrelated` |
| ScalarFunctions.DecorrelateArgs | sql/expression/scalar_function.go:136-141 | each argument slot is rewritten in place |
| Numerals.JoinLength | sql/expression/scalar_function.go:46-56 | the joined length is the parts' lengths plus one separator between each two |
| Numerals.JoinSnoc | sql/expression/scalar_function.go:46-56 | joining one more part adds the separator and that part at the end |
| ScalarFunctions.FuncString | sql/expression/scalar_function.go:46-56 | `name(arg1, arg2, ...)` |
| ScalarFunctions.WellFormedShaped | sql/expression/scalar_function.go:93-106 | every cast in a well-formed expression has its argument |
| ConstantFolding.FoldConstant | sql/expression/constant_fold.go:22-51 | a non-call and a dynamic call come back unchanged; a call becomes the same call over new arguments or a constant of its return type |
| ConstantFolding.FoldIdempotent | sql/expression/constant_fold.go:22-51 | folding twice is folding once |
| ConstantFolding.FoldColumns | sql/expression/constant_fold.go:22-51 | folding brings in no column |
| ConstantFolding.FoldClosed | sql/expression/constant_fold.go:22-51 | with evaluation that never fails, an expression without columns folds to a constant of its type |
| ConstantFolding.FoldCall | sql/expression/constant_fold.go:30-50 | each argument slot is replaced in place by its folded form before evaluation |
| ConstantFolding.FoldArgs | sql/expression/constant_fold.go:30-38 | every argument folded, in place |
| SortOptions.SortOption.Field | flow/dataset_sort_option.go:14-23 | one ascending entry per index, in order |
| SortOptions.SortOption.OrderBy | flow/dataset_sort_option.go:25-38 | one entry, ascending exactly when asked |
| SortOptions.SortOption.By | flow/dataset_sort_option.go:41-51 | exactly one entry appended, earlier ones unchanged, receiver returned |
| SortOptions.SortOption.Indexes | flow/dataset_sort_option.go:54-60 | same length and order as the entries |
| SortOptions.SortOption.String | flow/dataset_sort_option.go:62-73 | the rendering: `<index> asc` or `<index> desc` per entry, nothing between |
| SortOptions.ParseRender | flow/dataset_sort_option.go:62-73 | despite the missing separator the rendering reads back to the entry list |
| SortOptions.RenderInjective | flow/dataset_sort_option.go:62-73 | distinct entry lists render differently |
| SortOptions.ParseEntry | flow/dataset_sort_option.go:62-73 | reading back one rendered entry gives it, then the rest |
| Reducing.KeyPositions | flow/dataset_reduce.go:52-57 | the index texts in key order; none without a sort option |
| Reducing.KeyFieldsRoundTrip | flow/dataset_reduce.go:58-61 | splitting the key fields on commas gives back every key index |
| Reducing.KeyFields | flow/dataset_reduce.go:52-61 | the key positions joined by commas, or `0` without keys; read back by `KeyFieldsRoundTrip` |
| Reducing.ReducerArgs | flow/dataset_reduce.go:68-71 | `os.Args[1:]`, then `-gleam.reducer id -gleam.keyFields kf` |
| Reducing.LocalReduceBy | flow/dataset_reduce.go:45-78 | not a pipe, Go code, the reducer's name, and the command with those arguments and key fields ("0" without keys) |
| Reducing.ReduceByCombines | flow/dataset_reduce.go:20-30 | a local reduce, then a merge and a second reduce exactly when there are several shards; one shard at most remains; every local reduce groups by the keys |
| Reducing.ReduceCombines | flow/dataset_reduce.go:34-43 | the same for `Reduce`, whose local reduces have no group keys |
| Reducing.ReduceBy | flow/dataset_reduce.go:19-29 | the stages of `ReduceBy`, characterised by `ReduceByCombines` |
| Reducing.Reduce | flow/dataset_reduce.go:33-42 | the stages of `Reduce`, characterised by `ReduceCombines` |
| Reducing.ReduceByKey | flow/dataset_reduce.go:14-17 | `ReduceBy` on the sort option `Field(1)` |
| Reducing.ReduceByKeyCombines | flow/dataset_reduce.go:14-17 | a reduce by key ends with one reduce, leaves one shard at most, and every reduce groups by the first field, ascending |

## Left out

- Goroutines, channels and their capacities (executor.go:66-68), the WaitGroup, the heartbeat, the gRPC listener and `cancel`'s effect on running stages. The select is a parameter `event`, and cancelling is a flag.
- `util.Execute`, `exec.CommandContext` and the one-second sleep: the subprocess is the oracle `run`, and the stat passed to a built-in function is not modelled.
- Executing.JoinPath: `filepath.Join` also cleans the path (`..`, `//`); the model joins with one slash and does not clean.
- SorterStates.JoinPath: `path.Join` in `getUniqueFileName` also cleans the path; the model assumes a clean work directory and joins with one slash, so `RunFileName` is only the cleaned name for such a directory.
- RunFiles.ReadRow: a header above the largest int64, a record with too few datums and a non-integer handle make the source panic; the model reports `Failed` for each. A file the sorter writes never contains one (`FetchRecord`).
- RangeMerge.MergeAlternates: states only the shape of the merged points; which values they admit is stated by `RangeMembership.MergeMember` and `RangeBuilding.RangeBuilder.Merge`.
- Real file I/O in the sorter. Files are byte strings in a `disk` map, and partial reads are not modelled.
- The key codec (`codec.EncodeKey`/`Decode`) is replaced by a concrete encoding with a proved round trip.
- `CompareDatum`, `ToInt64` and other datum conversions are not modelled. Datums are the five kinds above, and `ToInt64` on non-integers is a parameter `conv`. The comparison error side channel (`fs.err`, `rh.err`) is left out.
- `sort.Sort` and `container/heap` are specified as "sorted permutation" and "pop a least entry". The model fixes one order among rows with equal keys, where the source leaves it unspecified; `SortedKeysAgree` shows that any other sorted order differs only among such rows, and `PointSortUnique` that range points have only one sorted order.
- `convertPoint` and `rangePoint.String` in range.go: casts across float and decimal kinds.
- The subquery handlers, `rewriteVariable` and the plan builder in expression_rewriter.go. `toColumn` is a lookup over the schemas it is given.
- `Update` and `Delete` pruning (column_pruning.go:218-225). Plans are values rebuilt by pruning, not objects updated in place, so sharing between plan nodes is not modelled.
- ColumnPruning.PruneProjection: the keep mask is computed before the reverse loop. That matches the source, because each mark depends only on its own position.
- `CastValues`, `CastValue`, `GetColDefaultValue`, `ToInfo` and `ToColumn` in column.go: time parsing, strict-mode casts and type conversion.
- ExprUtil.GetValidPrefix: classifies and upper-cases characters as ASCII. Go's `unicode.IsLower`/`IsUpper`/`ToUpper` on `rune(s[i])` (util.go:128-131) also treat Latin-1 bytes such as 0xE9 as letters, which matters only for wrapped bases whose bound lies above 0xC0. What `ExprUtil.UpperBound` admits is stated for ASCII digits and letters only.
- Builtins.NonDeterministic: only `rand` is marked non-deterministic; the classes of the other registered functions are not part of this model.
- ExpressionRewriting.ExpressionRewriter.Leave: `aggrMap` and `colMapper` are given as the schema columns they select, so an index outside the schema (a panic in the source) cannot be expressed; the plan builder sets them from the schema.
- ScalarFunctions.NewFunction: the errors are fixed texts; `errFunctionNotExists.GenByArgs(funcName)` also carries the function name, and the error definitions are not part of this model.
- Columns.CheckNotNull: requires every column offset to lie within the row; on a shorter row `row[col.Offset]` makes the source panic (column.go:230-237), which the model does not represent.
- Columns.FindCol, Columns.CheckOnce: `strings.EqualFold` and `strings.ToLower` are restricted to ASCII case folding.
- `TypeToStr` and `CompactStr` are taken as the column's fields `typeText` and `compactType`.
- `calculateSum`, `datumsToConstants`, `HashCode`, `MarshalJSON` and the bodies of the registered functions. Evaluation is an oracle.
- The stage semantics of `ReduceBy`/`Reduce` beyond their shape: the stages are values, and the data they process is not modelled.
- distributed/gleam/gleam.go, plugins/file/file_reader.go, examples/* and sql/executor/*: command line, file format dispatch, demos and pass-throughs.

## Findings

| source | as written | input that shows it | evidently intended | confidence | as-written member | corrected member |
|---|---|---|---|---|---|---|
| sql/plan/range.go:586-588 | `startInt++` on an excluded start at MaxInt64 wraps to MinInt64 | points `(MaxInt64, +inf]` (`id > 9223372036854775807`) | no handle, so no table range | not executed | RangeConvert.StartWrapFinding | RangeConvert.TableRangesMember |
| sql/plan/range.go:605-607 | `endInt--` on an excluded end at MinInt64 wraps to MaxInt64 | points `[-inf, MinInt64)` (`id < -9223372036854775808`) | no handle, so no table range | not executed | RangeConvert.EndWrapFinding | RangeConvert.TableRangesMember |
| sql/expression/util.go:118-125 | a base below 2 falls into `base <= 36` and gets the bound `'A' + base - 10` | `getValidPrefix("7", 1)` returns "7" | no digits for bases below 2, as for bases above 36 | not executed | ExprUtil.ValidPrefixBaseOneAcceptsSeven | ExprUtil.ValidPrefixCorrectedDigits |
| sql/plan/column_pruning.go:26-29 | a used column missing from the schema is logged, then `used[-1]` panics | one used column over an empty schema | skip the missing column | not executed | ColumnPruning.UsedListPanicsOnMissingColumn | ColumnPruning.GetUsedList |
