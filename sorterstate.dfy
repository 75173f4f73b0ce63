/**
 * The file sorter of sql/util/filesort/filesort.go on values: its state as
 * a `SorterState`, each of its operations as a step function on states,
 * and the sorter's invariant with one lemma per operation showing that the
 * operation keeps it.  The `FileSorter` class is proved to move from state
 * to state exactly as these functions say.
 */
module SorterStates {
  import opened Outcomes
  import opened Encoding
  import opened Datums
  import opened Sorting
  import opened SortRows
  import opened RunFiles
  import opened MergeState
  import opened Merging

  /** `path.Join(dir, elem)` for a clean directory and an element with no separator in it. */
  function JoinPath(dir: string, elem: string): (p: string)
    ensures |p| >= |elem| && p[|p| - |elem|..] == elem
  {
    if dir == [] then elem
    else if dir[|dir| - 1] == '/' then dir + elem
    else dir + "/" + elem
  }

  /** Joining different elements to the same directory gives different paths. */
  lemma JoinPathInjective(dir: string, a: string, b: string)
    requires JoinPath(dir, a) == JoinPath(dir, b)
    ensures a == b
  {
    var pa, pb := JoinPath(dir, a), JoinPath(dir, b);
    assert |pa| - |a| == |pb| - |b|;
  }

  /** The name of run file n (`getUniqueFileName`): the number in decimal, under the work directory. */
  function RunFileName(tmpDir: string, n: nat): string
  {
    JoinPath(tmpDir, NatToString(n))
  }

  /** Different file counts give different run file names. */
  lemma RunFileNameInjective(tmpDir: string, a: nat, b: nat)
    ensures RunFileName(tmpDir, a) == RunFileName(tmpDir, b) ==> a == b
  {
    if RunFileName(tmpDir, a) == RunFileName(tmpDir, b) {
      JoinPathInjective(tmpDir, NatToString(a), NatToString(b));
      NatToStringInjective(a, b);
    }
  }

  /**
   * Whether `path` is the directory `dir` itself or lies under it: what
   * `os.RemoveAll(dir)` removes.  An empty `dir` names nothing.
   */
  predicate InDir(path: string, dir: string)
  {
    && dir != []
    && (|| path == dir
        || var d := if dir[|dir| - 1] == '/' then dir else dir + "/";
           |d| <= |path| && path[..|d|] == d)
  }

  /** The file system after `os.RemoveAll(dir)`: every file outside `dir` kept as it was, nothing under it. */
  function RemoveAll(disk: map<string, seq<byte>>, dir: string): (r: map<string, seq<byte>>)
    ensures forall f :: f in r <==> f in disk && !InDir(f, dir)
    ensures forall f :: f in r ==> r[f] == disk[f]
  {
    disk - (set f | f in disk && InDir(f, dir))
  }

  /** Every run file lies under its work directory, when that is not empty. */
  lemma RunFileInDir(tmpDir: string, n: nat)
    requires tmpDir != []
    ensures InDir(RunFileName(tmpDir, n), tmpDir)
  {
    var d := if tmpDir[|tmpDir| - 1] == '/' then tmpDir else tmpDir + "/";
    assert RunFileName(tmpDir, n) == d + NatToString(n);
    assert RunFileName(tmpDir, n)[..|d|] == d;
  }

  /** Reading the `i`-th record of a run file gives back the `i`-th row and the next record's offset. */
  lemma FetchFromRun(file: seq<byte>, offset: nat, rows: seq<Row>, i: nat, keySize: nat, valSize: nat)
    requires i < |rows|
    requires AllWellFormed(rows, keySize, valSize)
    requires file == EncodeRun(rows) && offset == RecordOffset(rows, i)
    ensures ReadRow(file, offset, keySize, valSize) == Fetched(rows[i], RecordOffset(rows, i + 1))
  {
    RunSplit(rows, i);
    assert WellFormed(rows[i], keySize, valSize);
    FetchRecord(file, EncodeRunBelow(rows, i), EncodeRecord(rows[i]), file[RecordOffset(rows, i + 1)..], rows[i],
                keySize, valSize, offset, RecordOffset(rows, i + 1));
  }

  /** Reading past the last record of a run file reports end of file. */
  lemma FetchAtEnd(file: seq<byte>, offset: nat, rows: seq<Row>, keySize: nat, valSize: nat)
    requires AllFit(rows)
    requires file == EncodeRun(rows) && offset == RecordOffset(rows, |rows|)
    ensures ReadRow(file, offset, keySize, valSize) == Eof
  {
  }

  /** A permutation of well-formed rows is well formed. */
  lemma AllWellFormedPermutation(a: seq<Row>, b: seq<Row>, keySize: nat, valSize: nat)
    requires multiset(a) == multiset(b) && AllWellFormed(a, keySize, valSize)
    ensures AllWellFormed(b, keySize, valSize)
  {
    forall i | 0 <= i < |b|
      ensures WellFormed(b[i], keySize, valSize)
    {
      assert b[i] in multiset(a);
      var j :| 0 <= j < |a| && a[j] == b[i];
    }
  }

  /** Run file i is called `tmpDir/i`. */
  ghost predicate NamesNumbered(files: seq<string>, tmpDir: string)
  {
    forall i :: 0 <= i < |files| ==> files[i] == RunFileName(tmpDir, i)
  }

  /** File `name` on disk holds the run `run`: non-empty, sorted, of rows of the sorter's shape. */
  ghost predicate StoredRun(disk: map<string, seq<byte>>, name: string, run: seq<Row>,
                            keySize: nat, valSize: nat, byDesc: seq<bool>)
  {
    && run != []
    && AllWellFormed(run, keySize, valSize)
    && Sorted(run, RowLess(byDesc))
    && name in disk && disk[name] == EncodeRun(run)
  }

  /** Each run file on disk holds its run. */
  ghost predicate RunsStored(disk: map<string, seq<byte>>, files: seq<string>, runs: seq<seq<Row>>,
                             keySize: nat, valSize: nat, byDesc: seq<bool>)
  {
    && |files| == |runs|
    && forall i :: 0 <= i < |runs| ==> StoredRun(disk, files[i], runs[i], keySize, valSize, byDesc)
  }

  /** Writing another file leaves a stored run stored. */
  lemma StoredRunUpdate(disk: map<string, seq<byte>>, name: string, run: seq<Row>,
                        keySize: nat, valSize: nat, byDesc: seq<bool>, other: string, data: seq<byte>)
    requires StoredRun(disk, name, run, keySize, valSize, byDesc) && other != name
    ensures StoredRun(disk[other := data], name, run, keySize, valSize, byDesc)
  {
  }

  /** Adding a new run under the next number keeps the stored runs stored. */
  lemma RunsStoredAppend(disk: map<string, seq<byte>>, files: seq<string>, runs: seq<seq<Row>>,
                         keySize: nat, valSize: nat, byDesc: seq<bool>, tmpDir: string, run: seq<Row>)
    requires RunsStored(disk, files, runs, keySize, valSize, byDesc) && NamesNumbered(files, tmpDir)
    requires run != [] && AllWellFormed(run, keySize, valSize) && Sorted(run, RowLess(byDesc))
    ensures NamesNumbered(files + [RunFileName(tmpDir, |files|)], tmpDir)
    ensures RunsStored(disk[RunFileName(tmpDir, |files|) := EncodeRun(run)], files + [RunFileName(tmpDir, |files|)],
                       runs + [run], keySize, valSize, byDesc)
  {
    var name := RunFileName(tmpDir, |files|);
    NamesNumberedAppend(files, tmpDir);
    var files', runs', disk' := files + [name], runs + [run], disk[name := EncodeRun(run)];
    forall i | 0 <= i < |runs'|
      ensures StoredRun(disk', files'[i], runs'[i], keySize, valSize, byDesc)
    {
      if i < |files| {
        StoredRunKept(disk, files, runs, keySize, valSize, byDesc, tmpDir, EncodeRun(run), i);
      } else {
        StoredRunNew(disk, name, run, keySize, valSize, byDesc);
      }
    }
  }

  /** Writing a run to a file stores it there. */
  lemma StoredRunNew(disk: map<string, seq<byte>>, name: string, run: seq<Row>, keySize: nat, valSize: nat, byDesc: seq<bool>)
    requires run != [] && AllWellFormed(run, keySize, valSize) && Sorted(run, RowLess(byDesc))
    ensures StoredRun(disk[name := EncodeRun(run)], name, run, keySize, valSize, byDesc)
  {
  }

  /** Naming the next run file by its number keeps the names numbered. */
  lemma NamesNumberedAppend(files: seq<string>, tmpDir: string)
    requires NamesNumbered(files, tmpDir)
    ensures NamesNumbered(files + [RunFileName(tmpDir, |files|)], tmpDir)
  {
    var files' := files + [RunFileName(tmpDir, |files|)];
    forall i | 0 <= i < |files'|
      ensures files'[i] == RunFileName(tmpDir, i)
    {
      if i < |files| {
        assert files'[i] == files[i];
      }
    }
  }

  /** Writing the next numbered run file leaves run i stored. */
  lemma StoredRunKept(disk: map<string, seq<byte>>, files: seq<string>, runs: seq<seq<Row>>,
                      keySize: nat, valSize: nat, byDesc: seq<bool>, tmpDir: string, data: seq<byte>, i: nat)
    requires RunsStored(disk, files, runs, keySize, valSize, byDesc) && NamesNumbered(files, tmpDir)
    requires i < |files|
    ensures StoredRun(disk[RunFileName(tmpDir, |files|) := data], files[i], runs[i], keySize, valSize, byDesc)
  {
    RunFileNameInjective(tmpDir, i, |files|);
    StoredRunUpdate(disk, files[i], runs[i], keySize, valSize, byDesc, RunFileName(tmpDir, |files|), data);
  }

  /** Run file i is open at the record after the first `pos[i]` rows of run i. */
  ghost predicate ReadAt(runs: seq<seq<Row>>, pos: seq<nat>, fds: seq<nat>)
    requires Positions(runs, pos) && forall i :: 0 <= i < |runs| ==> AllFit(runs[i])
  {
    |fds| == |runs| && forall i :: 0 <= i < |runs| ==> fds[i] == RecordOffset(runs[i], pos[i])
  }

  /** The sorter's settings, fixed by `Builder.Build`. */
  datatype Config = Config(keySize: nat, valSize: nat, bufSize: nat, byDesc: seq<bool>, tmpDir: string)

  /** The settings `Build` accepts. */
  predicate ConfigOk(c: Config)
  {
    c.keySize == |c.byDesc| && c.keySize > 0 && c.valSize > 0 && c.bufSize > 0
  }

  /**
   * Everything a `FileSorter` holds at one moment: its fields, the file
   * system, and four ghost records: the rows of each run file, how many
   * rows of each have been read, the rows put in and the rows output.
   */
  datatype SorterState = SorterState(
    buf: seq<Row>, files: seq<string>, cursor: nat, closed: bool, fetched: bool,
    heap: seq<Item>, fds: seq<nat>, fileCount: nat, disk: map<string, seq<byte>>,
    runs: seq<seq<Row>>, pos: seq<nat>, inserted: multiset<Row>, emitted: seq<Row>)

  /** The outcome of `Output`: a row, the end of the rows (`nil` key), or an error. */
  datatype Out = Out(row: Row) | End | Error(msg: string)

  /**
   * What the sorter's code relies on without checking it: while open, every
   * run file exists; before output the buffered rows fit their headers, no
   * file is open and the heap is empty; during a merge every run file is
   * open and has a read position, and each heap entry names one of them.
   */
  ghost predicate Shape(s: SorterState)
  {
    && (!s.closed ==> forall i :: 0 <= i < |s.files| ==> s.files[i] in s.disk)
    && (!s.closed && !s.fetched ==> AllFit(s.buf) && s.fds == [] && s.heap == [])
    && (!s.closed && s.fetched && s.files != [] ==>
          && |s.fds| == |s.files| && |s.pos| == |s.files|
          && forall k :: 0 <= k < |s.heap| ==> s.heap[k].index < |s.files|)
  }

  // ---------------------------------------------------------------------
  // The operations, one step function each

  /** A new sorter: nothing put in, nothing written. */
  ghost function Initial(disk: map<string, seq<byte>>): (s: SorterState)
    ensures Shape(s) && !s.closed && !s.fetched && s.inserted == multiset{}
  {
    SorterState([], [], 0, false, false, [], [], 0, disk, [], [], multiset{}, [])
  }

  /** A permutation of rows that fit their headers fits them too. */
  lemma AllFitPermutation(a: seq<Row>, b: seq<Row>)
    requires multiset(a) == multiset(b) && AllFit(a)
    ensures AllFit(b)
  {
    forall i | 0 <= i < |b|
      ensures Fits(b[i])
    {
      assert b[i] in multiset(a);
      var j :| 0 <= j < |a| && a[j] == b[i];
    }
  }

  /** `flushToFile`: the buffer, sorted, becomes run file `tmpDir/fileCount`, and the buffer is emptied. */
  ghost function Flushed(c: Config, s: SorterState): (t: SorterState)
    requires AllFit(s.buf)
  {
    var run := Sort(s.buf, RowLess(c.byDesc));
    AllFitPermutation(s.buf, run);
    var name := RunFileName(c.tmpDir, s.fileCount);
    s.(buf := [], files := s.files + [name], fileCount := s.fileCount + 1,
       disk := s.disk[name := EncodeRun(run)], runs := s.runs + [run])
  }

  /** Flushing writes the sorted buffer as the next run file, under the next run file name. */
  lemma FlushedFields(c: Config, s: SorterState)
    requires AllFit(s.buf)
    ensures var run := Sort(s.buf, RowLess(c.byDesc));
            var name := RunFileName(c.tmpDir, s.fileCount);
            && AllFit(run)
            && Flushed(c, s) == s.(buf := [], files := s.files + [name], fileCount := s.fileCount + 1,
                                   disk := s.disk[name := EncodeRun(run)], runs := s.runs + [run])
  {
    AllFitPermutation(s.buf, Sort(s.buf, RowLess(c.byDesc)));
  }

  /** Before output, flushing keeps what the code relies on. */
  lemma FlushedShape(c: Config, s: SorterState)
    requires Shape(s) && !s.closed && !s.fetched
    ensures Shape(Flushed(c, s)) && Flushed(c, s).fds == [] && |Flushed(c, s).files| == |s.files| + 1
  {
  }

  /** The checks of `Input`, in their order. */
  function InputError(closed: bool, fetched: bool, keyLen: nat, valLen: nat, keySize: nat, valSize: nat): (r: Option<string>)
    ensures r.None? <==> !closed && !fetched && keyLen == keySize && valLen == valSize
    ensures closed ==> r == Some("FileSorter has been closed")
  {
    if closed then Some("FileSorter has been closed")
    else if fetched then Some("call input after output")
    else if keyLen != keySize then Some("mismatch in key size and key slice")
    else if valLen != valSize then Some("mismatch in value size and val slice")
    else None
  }

  /** `Input`: its error, or the state with a full buffer flushed first and the row appended. */
  ghost function InputStep(c: Config, s: SorterState, row: Row): (r: (SorterState, Option<string>))
    requires Shape(s) && Fits(row)
  {
    var err := InputError(s.closed, s.fetched, |row.key|, |row.val|, c.keySize, c.valSize);
    if err.Some? then (s, err) else (Accepted(c, s, row), None)
  }

  /** An accepted row: a full buffer is flushed first, then the row is appended to the buffer. */
  ghost function Accepted(c: Config, s: SorterState, row: Row): SorterState
    requires Shape(s) && Fits(row) && !s.closed && !s.fetched
  {
    var s1 := if |s.buf| >= c.bufSize then Flushed(c, s) else s;
    assert AllFit(s1.buf + [row]) by { AllFitConcat(s1.buf, [row]); }
    s1.(buf := s1.buf + [row], inserted := s1.inserted + multiset{row})
  }

  /** `Close`: empty the buffer and remove the work directory with the run files; closing twice is an error. */
  ghost function CloseStep(c: Config, s: SorterState): (r: (SorterState, Option<string>))
  {
    if s.closed then (s, Some("FileSorter has been closed"))
    else (s.(buf := [], disk := RemoveAll(s.disk, c.tmpDir), closed := true), None)
  }

  /** `internalSort`: sort the buffer on the first call, then give out the row at the cursor, or the end. */
  ghost function InternalStep(c: Config, s: SorterState): (r: (SorterState, Out))
    ensures !r.1.Error? && r.0.fetched
  {
    var t := if s.fetched then s else s.(buf := Sort(s.buf, RowLess(c.byDesc)), fetched := true);
    if t.cursor < |t.buf| then (t.(cursor := t.cursor + 1, emitted := t.emitted + [t.buf[t.cursor]]), Out(t.buf[t.cursor]))
    else (t, End)
  }

  /**
   * `fetchNextRow` on run file i: the outcome of reading at the file's
   * offset; a row read moves the offset past its record.
   */
  ghost function ReadNext(c: Config, s: SorterState, i: nat): (r: (SorterState, Fetch))
    requires i < |s.fds| && i < |s.files| && s.files[i] in s.disk
    ensures r.0 == s.(fds := r.0.fds) && |r.0.fds| == |s.fds|
  {
    var f := ReadRow(s.disk[s.files[i]], s.fds[i], c.keySize, c.valSize);
    (if f.Fetched? then s.(fds := s.fds[i := f.next]) else s, f)
  }

  /** `heap.Pop`: take a least entry off the heap. */
  ghost function PopMin(c: Config, s: SorterState): (SorterState, Item)
    requires s.heap != []
  {
    var m := MinIndex(s.heap, ItemLess(c.byDesc));
    (s.(heap := RemoveAt(s.heap, m)), s.heap[m])
  }

  /** `heap.Push` of the row just read from run file i, which is one row further read. */
  ghost function PushItem(s: SorterState, i: nat, row: Row): SorterState
    requires i < |s.pos|
  {
    s.(heap := s.heap + [Item(i, row)], pos := s.pos[i := s.pos[i] + 1])
  }

  /** The files every heap entry names are among the first n. */
  ghost predicate HeapIndexed(heap: seq<Item>, n: nat)
  {
    forall k :: 0 <= k < |heap| ==> heap[k].index < n
  }

  /**
   * The priming loop of `externalSort` from file `id` on: read the first
   * record of each file into the heap; a failed read, or a file with no
   * record ("file is empty"), ends it with an error.
   */
  ghost function Prime(c: Config, s: SorterState, id: nat): (r: (SorterState, Option<string>))
    requires id <= |s.files| && |s.fds| == |s.files| && |s.pos| == |s.files|
    requires forall i :: 0 <= i < |s.files| ==> s.files[i] in s.disk
    ensures r.0 == s.(heap := r.0.heap, fds := r.0.fds, pos := r.0.pos)
    ensures |r.0.fds| == |s.fds| && |r.0.pos| == |s.pos|
    ensures HeapIndexed(s.heap, |s.files|) ==> HeapIndexed(r.0.heap, |s.files|)
    decreases |s.files| - id
  {
    if id == |s.files| then (s, None)
    else
      var (s1, f) := ReadNext(c, s, id);
      match f
      case Failed(msg) => (s1, Some(msg))
      case Eof => (s1, Some("file is empty"))
      case Fetched(row, _) => Prime(c, PushItem(s1, id, row), id + 1)
  }

  /** `openAllFiles`: every run file opened at its start, none of its rows read. */
  ghost function Opened(s: SorterState): SorterState
  {
    s.(fds := s.fds + Zeros(|s.files|), pos := Zeros(|s.files|))
  }

  /**
   * The first call of `externalSort`: flush what is left in the buffer,
   * open every run file at its start and prime the heap; once that
   * succeeds, output has started.
   */
  ghost function Started(c: Config, s: SorterState): (r: (SorterState, Option<string>))
    requires Shape(s) && !s.closed && !s.fetched && s.files != []
    ensures r.1.None? ==> Shape(r.0) && !r.0.closed && r.0.fetched && r.0.files != []
  {
    var s1 := if s.buf != [] then Flushed(c, s) else s;
    assert Shape(s1) && s1.fds == [] && s1.files != [] && !s1.closed by {
      if s.buf != [] { FlushedShape(c, s); }
    }
    var s2 := Opened(s1);
    var (s3, err) := Prime(c, s2, 0);
    if err.Some? then (s3, err) else (s3.(fetched := true), None)
  }

  /**
   * One output step of the merge in `externalSort`: pop a least heap entry,
   * read the next record of its run file into the heap, and give out the
   * popped row; with the heap empty, the end.
   */
  ghost function MergeStep(c: Config, s: SorterState): (r: (SorterState, Out))
    requires Shape(s) && !s.closed && s.fetched && s.files != []
  {
    if s.heap == [] then (s, End)
    else
      var (s1, im) := PopMin(c, s);
      var (s2, f) := ReadNext(c, s1, im.index);
      match f
      case Failed(msg) => (s2, Error(msg))
      case Eof => (s2.(emitted := s2.emitted + [im.row]), Out(im.row))
      case Fetched(row, _) => (PushItem(s2, im.index, row).(emitted := s2.emitted + [im.row]), Out(im.row))
  }

  /** `externalSort`: start the merge on the first call, then take one merge step. */
  ghost function ExternalStep(c: Config, s: SorterState): (r: (SorterState, Out))
    requires Shape(s) && !s.closed && s.files != []
  {
    if s.fetched then MergeStep(c, s)
    else
      var (t, err) := Started(c, s);
      if err.Some? then (t, Error(err.value)) else MergeStep(c, t)
  }

  /** `Output`: after `Close` an error; without run files the in-memory output, otherwise the merge. */
  ghost function OutputStep(c: Config, s: SorterState): (r: (SorterState, Out))
    requires Shape(s)
  {
    if s.closed then (s, Error("FileSorter has been closed"))
    else if s.files == [] then InternalStep(c, s)
    else ExternalStep(c, s)
  }

  // ---------------------------------------------------------------------
  // The invariant

  /** What holds in every phase: accepted settings, numbered run files, and a bounded buffer of well-formed rows. */
  ghost predicate Common(c: Config, s: SorterState)
  {
    && ConfigOk(c)
    && s.fileCount == |s.files| && NamesNumbered(s.files, c.tmpDir)
    && |s.buf| <= c.bufSize && AllWellFormed(s.buf, c.keySize, c.valSize)
  }

  /** Each run file holds its run. */
  ghost predicate Stored(c: Config, s: SorterState)
  {
    RunsStored(s.disk, s.files, s.runs, c.keySize, c.valSize, c.byDesc)
  }

  /** Before output: nothing read or output yet, and the buffer and the runs hold exactly the rows put in. */
  ghost predicate InputPhase(c: Config, s: SorterState)
  {
    && s.heap == [] && s.fds == [] && s.cursor == 0 && s.emitted == []
    && Positions(s.runs, Zeros(|s.runs|))
    && s.inserted == multiset(s.buf) + Unread(s.runs, Zeros(|s.runs|))
  }

  /** Output without run files: the buffer is sorted and output up to the cursor. */
  ghost predicate InternalPhase(c: Config, s: SorterState)
  {
    && Sorted(s.buf, RowLess(c.byDesc)) && s.cursor <= |s.buf|
    && s.emitted == s.buf[..s.cursor] && multiset(s.buf) == s.inserted
  }

  /** Output by merging: the merge invariant holds and each file is read up to its run's position. */
  ghost predicate MergePhase(c: Config, s: SorterState)
  {
    && s.buf == []
    && MergeInv(s.runs, s.pos, s.heap, s.emitted, s.inserted, c.byDesc)
    && (forall i :: 0 <= i < |s.runs| ==> AllFit(s.runs[i]))
    && ReadAt(s.runs, s.pos, s.fds)
  }

  /**
   * The sorter's invariant: the buffer is bounded, run file i is called
   * `tmpDir/i` and, until the sorter is closed, holds the sorted run i;
   * each phase keeps its own account of the rows put in.
   */
  ghost predicate Inv(c: Config, s: SorterState)
  {
    && Common(c, s)
    && (s.closed ==> s.buf == [])
    && (!s.closed ==> Stored(c, s))
    && (!s.closed && !s.fetched ==> InputPhase(c, s))
    && (!s.closed && s.fetched && s.files == [] ==> InternalPhase(c, s))
    && (!s.closed && s.fetched && s.files != [] ==> MergePhase(c, s))
  }

  /** The invariant gives everything the code relies on without checking. */
  lemma InvShape(c: Config, s: SorterState)
    requires Inv(c, s)
    ensures Shape(s)
  {
    if !s.closed {
      forall i | 0 <= i < |s.files|
        ensures s.files[i] in s.disk
      {
        assert StoredRun(s.disk, s.files[i], s.runs[i], c.keySize, c.valSize, c.byDesc);
      }
      if s.fetched && s.files != [] {
        forall k | 0 <= k < |s.heap|
          ensures s.heap[k].index < |s.files|
        {
        }
      }
    }
  }

  /** A new sorter with accepted settings satisfies the invariant. */
  lemma InitialInv(c: Config, disk: map<string, seq<byte>>)
    requires ConfigOk(c)
    ensures Inv(c, Initial(disk))
  {
    assert Zeros(0) == [];
  }

  /** Flushing a non-empty buffer before output keeps the invariant and every row put in. */
  lemma FlushKeeps(c: Config, s: SorterState)
    requires Inv(c, s) && !s.closed && !s.fetched && s.buf != []
    ensures Inv(c, Flushed(c, s))
  {
    var run := Sort(s.buf, RowLess(c.byDesc));
    RowLessIsStrictWeakOrder(c.byDesc);
    SortSorted(s.buf, RowLess(c.byDesc));
    AllWellFormedPermutation(s.buf, run, c.keySize, c.valSize);
    RunsStoredAppend(s.disk, s.files, s.runs, c.keySize, c.valSize, c.byDesc, c.tmpDir, run);
    UnreadAppend(s.runs, run);
    var t := Flushed(c, s);
    assert t.inserted == multiset(t.buf) + Unread(t.runs, Zeros(|t.runs|));
  }

  /** Appending a row of the sorter's shape to a buffer with room keeps the invariant and records the row. */
  lemma AppendKeeps(c: Config, s: SorterState, row: Row)
    requires Inv(c, s) && !s.closed && !s.fetched && |s.buf| < c.bufSize
    requires WellFormed(row, c.keySize, c.valSize)
    ensures Inv(c, s.(buf := s.buf + [row], inserted := s.inserted + multiset{row}))
  {
    AppendWellFormed(s.buf, row, c.keySize, c.valSize);
  }

  /** Appending a row of the sorter's shape to a buffer of such rows. */
  lemma AppendWellFormed(buf: seq<Row>, row: Row, keySize: nat, valSize: nat)
    requires AllWellFormed(buf, keySize, valSize) && WellFormed(row, keySize, valSize)
    ensures AllWellFormed(buf + [row], keySize, valSize)
    ensures multiset(buf + [row]) == multiset(buf) + multiset{row}
  {
    assert forall i :: 0 <= i < |buf| ==> (buf + [row])[i] == buf[i];
  }

  /**
   * `Input` keeps the invariant; on an error nothing changes, otherwise the
   * row is added to the rows put in.
   */
  lemma InputKeeps(c: Config, s: SorterState, row: Row)
    requires Inv(c, s) && Fits(row)
    ensures Shape(s) && Inv(c, InputStep(c, s, row).0)
    ensures InputStep(c, s, row).1.Some? ==> InputStep(c, s, row).0 == s
    ensures InputStep(c, s, row).1.None? ==> InputStep(c, s, row).0.inserted == s.inserted + multiset{row}
  {
    InvShape(c, s);
    if InputError(s.closed, s.fetched, |row.key|, |row.val|, c.keySize, c.valSize).None? {
      AcceptedKeeps(c, s, row);
    }
  }

  /** Accepting a row of the sorter's shape keeps the invariant and records the row. */
  lemma AcceptedKeeps(c: Config, s: SorterState, row: Row)
    requires Inv(c, s) && Shape(s) && !s.closed && !s.fetched && WellFormed(row, c.keySize, c.valSize)
    ensures Inv(c, Accepted(c, s, row)) && Accepted(c, s, row).inserted == s.inserted + multiset{row}
  {
    var s1 := if |s.buf| >= c.bufSize then Flushed(c, s) else s;
    if |s.buf| >= c.bufSize {
      FlushKeeps(c, s);
    }
    AppendKeeps(c, s1, row);
  }

  /**
   * `Close` keeps the invariant and fails exactly when already closed.
   * Afterwards the buffer is empty, the files outside the work directory
   * are as they were, and no run file is left.
   */
  lemma CloseKeeps(c: Config, s: SorterState)
    requires Inv(c, s)
    ensures Inv(c, CloseStep(c, s).0) && CloseStep(c, s).0.closed && CloseStep(c, s).0.inserted == s.inserted
    ensures CloseStep(c, s).1.Some? <==> s.closed
    ensures !s.closed ==> CloseStep(c, s).0.buf == []
    ensures !s.closed ==> forall f :: f in CloseStep(c, s).0.disk <==> f in s.disk && !InDir(f, c.tmpDir)
    ensures !s.closed && c.tmpDir != [] ==> forall i :: 0 <= i < |s.files| ==> s.files[i] !in CloseStep(c, s).0.disk
  {
    if !s.closed && c.tmpDir != [] {
      forall i | 0 <= i < |s.files|
        ensures s.files[i] !in CloseStep(c, s).0.disk
      {
        RunFileInDir(c.tmpDir, i);
      }
    }
  }

  /** A prefix of a sorted sequence is sorted. */
  lemma SortedPrefix(s: seq<Row>, n: nat, byDesc: seq<bool>)
    requires Sorted(s, RowLess(byDesc)) && n <= |s|
    ensures Sorted(s[..n], RowLess(byDesc))
  {
  }

  /** Sorting the buffer when output starts without run files keeps the invariant. */
  lemma SortKeeps(c: Config, s: SorterState, t: SorterState)
    requires Inv(c, s) && !s.closed && !s.fetched && s.files == []
    requires t == s.(buf := Sort(s.buf, RowLess(c.byDesc)), fetched := true)
    ensures Inv(c, t)
  {
    RowLessIsStrictWeakOrder(c.byDesc);
    SortSorted(s.buf, RowLess(c.byDesc));
    AllWellFormedPermutation(s.buf, t.buf, c.keySize, c.valSize);
    assert Unread(s.runs, Zeros(|s.runs|)) == multiset{};
    assert t.emitted == t.buf[..0];
    assert InternalPhase(c, t);
  }

  /** Giving out the row at the cursor keeps the invariant, and the rows output stay sorted. */
  lemma CursorKeeps(c: Config, s: SorterState, t: SorterState)
    requires Inv(c, s) && !s.closed && s.fetched && s.files == [] && s.cursor < |s.buf|
    requires t == s.(cursor := s.cursor + 1, emitted := s.emitted + [s.buf[s.cursor]])
    ensures Inv(c, t) && Sorted(t.emitted, RowLess(c.byDesc))
  {
    assert s.buf[..s.cursor + 1] == s.buf[..s.cursor] + [s.buf[s.cursor]];
    SortedPrefix(s.buf, s.cursor + 1, c.byDesc);
    assert InternalPhase(c, t);
  }

  /** With the cursor at the end of the buffer, every row put in has been output, in order. */
  lemma InternalDone(c: Config, s: SorterState)
    requires Inv(c, s) && !s.closed && s.fetched && s.files == [] && s.cursor >= |s.buf|
    ensures multiset(s.emitted) == s.inserted && Sorted(s.emitted, RowLess(c.byDesc))
  {
    assert s.buf[..s.cursor] == s.buf;
  }

  /** Output without run files, once the buffer is sorted: the row at the cursor, or the end. */
  lemma SortedOutputKeeps(c: Config, s: SorterState, r: (SorterState, Out))
    requires Inv(c, s) && !s.closed && s.fetched && s.files == [] && r == InternalStep(c, s)
    ensures Inv(c, r.0) && r.0.inserted == s.inserted && r.0.files == [] && !r.0.closed
    ensures Sorted(r.0.emitted, RowLess(c.byDesc))
    ensures r.1.Out? ==> r.0.emitted == s.emitted + [r.1.row]
    ensures r.1.End? ==> multiset(r.0.emitted) == s.inserted && r.0.emitted == s.emitted
  {
    if s.cursor < |s.buf| {
      CursorKeeps(c, s, r.0);
    } else {
      InternalDone(c, s);
    }
  }

  /** The first output without run files: the buffer is sorted, then its first row given out. */
  lemma SortThenOutputKeeps(c: Config, s: SorterState, r: (SorterState, Out))
    requires Inv(c, s) && !s.closed && !s.fetched && s.files == [] && r == InternalStep(c, s)
    ensures Inv(c, r.0) && r.0.inserted == s.inserted && r.0.files == [] && !r.0.closed
    ensures Sorted(r.0.emitted, RowLess(c.byDesc))
    ensures r.1.Out? ==> r.0.emitted == s.emitted + [r.1.row]
    ensures r.1.End? ==> multiset(r.0.emitted) == s.inserted && r.0.emitted == s.emitted
  {
    var t := s.(buf := Sort(s.buf, RowLess(c.byDesc)), fetched := true);
    SortKeeps(c, s, t);
    SortedOutputKeeps(c, t, InternalStep(c, t));
  }

  /**
   * Output without run files keeps the invariant: the buffer is sorted
   * once, the rows come out in order, and the end comes once every row put
   * in has been output.
   */
  lemma InternalKeeps(c: Config, s: SorterState, r: (SorterState, Out))
    requires Inv(c, s) && !s.closed && s.files == [] && r == InternalStep(c, s)
    ensures Inv(c, r.0) && r.0.inserted == s.inserted && r.0.files == [] && !r.0.closed
    ensures Sorted(r.0.emitted, RowLess(c.byDesc))
    ensures r.1.Out? ==> r.0.emitted == s.emitted + [r.1.row]
    ensures r.1.End? ==> multiset(r.0.emitted) == s.inserted && r.0.emitted == s.emitted
  {
    if s.fetched {
      SortedOutputKeeps(c, s, r);
    } else {
      SortThenOutputKeeps(c, s, r);
    }
  }

  /** Every run is non-empty. */
  ghost predicate NonEmptyRuns(runs: seq<seq<Row>>)
  {
    forall i :: 0 <= i < |runs| ==> runs[i] != []
  }

  /** Stored runs are non-empty. */
  lemma StoredNonEmpty(c: Config, s: SorterState)
    requires RunsStored(s.disk, s.files, s.runs, c.keySize, c.valSize, c.byDesc)
    ensures NonEmptyRuns(s.runs) && forall i :: 0 <= i < |s.runs| ==> AllFit(s.runs[i])
    ensures forall i :: 0 <= i < |s.runs| ==> Sorted(s.runs[i], RowLess(c.byDesc))
    ensures forall i :: 0 <= i < |s.files| ==> s.files[i] in s.disk
  {
    forall i | 0 <= i < |s.runs|
      ensures s.runs[i] != [] && AllFit(s.runs[i]) && s.files[i] in s.disk && Sorted(s.runs[i], RowLess(c.byDesc))
    {
      assert StoredRun(s.disk, s.files[i], s.runs[i], c.keySize, c.valSize, c.byDesc);
    }
  }

  /** The state of the priming loop once the first row of runs 0 to id - 1 is in the heap. */
  ghost predicate PrimedUpTo(c: Config, s: SorterState, id: nat)
  {
    && RunsStored(s.disk, s.files, s.runs, c.keySize, c.valSize, c.byDesc)
    && NonEmptyRuns(s.runs) && (forall i :: 0 <= i < |s.runs| ==> AllFit(s.runs[i]))
    && (forall i :: 0 <= i < |s.files| ==> s.files[i] in s.disk)
    && id <= |s.files| && |s.fds| == |s.files|
    && s.heap == FirstRows(s.runs, id) && s.pos == Primed(|s.files|, id)
    && forall i :: 0 <= i < |s.files| ==> s.fds[i] == RecordOffset(s.runs[i], s.pos[i])
  }

  /** The priming loop's state after reading the first record of run file `id`. */
  ghost function AfterFirst(s: SorterState, id: nat): SorterState
    requires id < |s.files| && id < |s.runs| && s.runs[id] != [] && AllFit(s.runs[id]) && |s.fds| == |s.files|
  {
    s.(fds := s.fds[id := RecordOffset(s.runs[id], 1)])
  }

  /** One round of the priming loop reads the first row of run `id`. */
  lemma PrimeFetch(c: Config, s: SorterState, id: nat)
    requires PrimedUpTo(c, s, id) && id < |s.files|
    ensures ReadNext(c, s, id) == (AfterFirst(s, id), Fetched(s.runs[id][0], RecordOffset(s.runs[id], 1)))
  {
    assert StoredRun(s.disk, s.files[id], s.runs[id], c.keySize, c.valSize, c.byDesc);
    FetchFromRun(s.disk[s.files[id]], s.fds[id], s.runs[id], 0, c.keySize, c.valSize);
  }

  /** Pushing the first row of run `id` moves the priming loop on to the next file. */
  lemma PrimePush(c: Config, s: SorterState, id: nat)
    requires PrimedUpTo(c, s, id) && id < |s.files|
    ensures PrimedUpTo(c, PushItem(AfterFirst(s, id), id, s.runs[id][0]), id + 1)
  {
    var s' := PushItem(AfterFirst(s, id), id, s.runs[id][0]);
    assert s'.heap == FirstRows(s.runs, id + 1);
    PrimedNext(|s.files|, id);
  }

  /**
   * The priming loop from file `id` on, with the first row of runs 0 to
   * id - 1 already in the heap: it reads the first row of every remaining
   * run, never fails, and leaves every file open after its first record.
   */
  lemma {:induction false} PrimeRuns(c: Config, s: SorterState, id: nat)
    requires PrimedUpTo(c, s, id)
    ensures Prime(c, s, id).1.None?
    ensures Prime(c, s, id).0
            == s.(heap := FirstRows(s.runs, |s.files|), fds := Prime(c, s, id).0.fds, pos := Primed(|s.files|, |s.files|))
    ensures forall i :: 0 <= i < |s.files| ==> Prime(c, s, id).0.fds[i] == RecordOffset(s.runs[i], 1)
    decreases |s.files| - id
  {
    if id == |s.files| {
      assert forall i :: 0 <= i < |s.files| ==> s.pos[i] == 1;
    } else {
      PrimeFetch(c, s, id);
      PrimePush(c, s, id);
      PrimeRuns(c, PushItem(AfterFirst(s, id), id, s.runs[id][0]), id + 1);
    }
  }

  /** Flushing what is left in the buffer when the merge starts keeps the invariant and empties the buffer. */
  lemma StartFlushKeeps(c: Config, s: SorterState, s1: SorterState)
    requires Inv(c, s) && !s.closed && !s.fetched && s.files != []
    requires s1 == if s.buf != [] then Flushed(c, s) else s
    ensures Inv(c, s1) && s1.buf == [] && !s1.closed && !s1.fetched && s1.files != []
    ensures s1.inserted == s.inserted && s1.emitted == []
  {
    if s.buf != [] {
      FlushKeeps(c, s);
    }
  }

  /** With the first row of every run in the heap and every file after its first record, the merge invariant holds. */
  lemma MergeStartKeeps(c: Config, s: SorterState, t: SorterState)
    requires Inv(c, s) && s.buf == [] && !s.closed && !s.fetched && s.files != []
    requires |t.fds| == |s.files| && forall i :: 0 <= i < |s.files| ==> t.fds[i] == RecordOffset(s.runs[i], 1)
    requires t == s.(heap := FirstRows(s.runs, |s.files|), fds := t.fds, pos := Primed(|s.files|, |s.files|), fetched := true)
    ensures Inv(c, t)
  {
    StoredNonEmpty(c, s);
    var n := |s.files|;
    PrimedAll(s.runs, n);
    MergeStart(s.runs, s.inserted, c.byDesc);
    assert ReadAt(t.runs, t.pos, t.fds);
    assert MergePhase(c, t);
  }

  /** Freshly opened run files are read from their start: the priming loop can begin. */
  lemma OpenedAtStart(c: Config, s: SorterState, s2: SorterState)
    requires Stored(c, s) && s.fds == [] && s.heap == []
    requires s2 == Opened(s)
    ensures PrimedUpTo(c, s2, 0)
  {
    StoredNonEmpty(c, s);
    assert Primed(|s.files|, 0) == Zeros(|s.files|);
  }

  /**
   * Starting the merge keeps the invariant: it never fails, writes the
   * buffer out as the last run, and leaves the first row of every run in
   * the heap with nothing output yet.
   */
  lemma StartedKeeps(c: Config, s: SorterState, r: (SorterState, Option<string>))
    requires Inv(c, s) && !s.closed && !s.fetched && s.files != []
    requires Shape(s) && r == Started(c, s)
    ensures r.1.None? && Inv(c, r.0) && r.0.inserted == s.inserted && r.0.emitted == []
    ensures r.0.fetched && !r.0.closed && r.0.files != []
  {
    var s1 := if s.buf != [] then Flushed(c, s) else s;
    StartFlushKeeps(c, s, s1);
    var s2 := Opened(s1);
    OpenedAtStart(c, s1, s2);
    PrimeRuns(c, s2, 0);
    MergeStartKeeps(c, s1, r.0);
  }

  /** Reading a run file at the record after the first p rows: the next row, or end of file after the last. */
  lemma FetchAt(file: seq<byte>, offset: nat, run: seq<Row>, p: nat, keySize: nat, valSize: nat)
    requires AllWellFormed(run, keySize, valSize) && p <= |run|
    requires file == EncodeRun(run) && offset == RecordOffset(run, p)
    ensures ReadRow(file, offset, keySize, valSize)
            == if p < |run| then Fetched(run[p], RecordOffset(run, p + 1)) else Eof
  {
    if p < |run| {
      FetchFromRun(file, offset, run, p, keySize, valSize);
    } else {
      FetchAtEnd(file, offset, run, keySize, valSize);
    }
  }

  /** During the merge, run file i holds run i and is open at the record after the rows read. */
  lemma MergeFile(c: Config, s: SorterState, i: nat)
    requires Inv(c, s) && !s.closed && s.fetched && s.files != [] && i < |s.files|
    ensures s.pos[i] <= |s.runs[i]| && AllWellFormed(s.runs[i], c.keySize, c.valSize)
    ensures s.files[i] in s.disk && s.disk[s.files[i]] == EncodeRun(s.runs[i])
    ensures s.fds[i] == RecordOffset(s.runs[i], s.pos[i])
  {
    assert StoredRun(s.disk, s.files[i], s.runs[i], c.keySize, c.valSize, c.byDesc);
  }

  /** Reading one more row of run i moves file i to the next record. */
  lemma ReadAtAdvance(runs: seq<seq<Row>>, pos: seq<nat>, fds: seq<nat>, i: nat)
    requires Positions(runs, pos) && forall j :: 0 <= j < |runs| ==> AllFit(runs[j])
    requires ReadAt(runs, pos, fds) && i < |runs| && pos[i] < |runs[i]|
    ensures Positions(runs, pos[i := pos[i] + 1])
    ensures ReadAt(runs, pos[i := pos[i] + 1], fds[i := RecordOffset(runs[i], pos[i] + 1)])
  {
  }

  /** The merge part of the invariant after outputting a least heap entry and reading the next row of its run. */
  lemma MergeReadPhase(c: Config, s: SorterState, m: nat, t: SorterState)
    requires MergePhase(c, s) && s.heap != []
    requires m == MinIndex(s.heap, ItemLess(c.byDesc))
    requires s.heap[m].index < |s.runs| && s.pos[s.heap[m].index] < |s.runs[s.heap[m].index]|
    requires var i := s.heap[m].index;
             t == s.(heap := RemoveAt(s.heap, m) + [Item(i, s.runs[i][s.pos[i]])],
                     fds := s.fds[i := RecordOffset(s.runs[i], s.pos[i] + 1)],
                     pos := s.pos[i := s.pos[i] + 1], emitted := s.emitted + [s.heap[m].row])
    ensures MergePhase(c, t)
  {
    MergeReadFields(c, s.runs, s.pos, s.heap, s.fds, s.emitted, s.inserted, m, t);
  }

  lemma MergeReadFields(c: Config, runs: seq<seq<Row>>, pos: seq<nat>, heap: seq<Item>,
                        fds: seq<nat>, emitted: seq<Row>, inserted: multiset<Row>, m: nat, t: SorterState)
    requires MergeInv(runs, pos, heap, emitted, inserted, c.byDesc)
    requires (forall j :: 0 <= j < |runs| ==> AllFit(runs[j])) && ReadAt(runs, pos, fds)
    requires heap != [] && m == MinIndex(heap, ItemLess(c.byDesc))
    requires heap[m].index < |runs| && pos[heap[m].index] < |runs[heap[m].index]|
    requires var i := heap[m].index;
             && t.buf == [] && t.runs == runs && t.pos == pos[i := pos[i] + 1]
             && t.heap == RemoveAt(heap, m) + [Item(i, runs[i][pos[i]])]
             && t.fds == fds[i := RecordOffset(runs[i], pos[i] + 1)]
             && t.emitted == emitted + [heap[m].row] && t.inserted == inserted
    ensures MergePhase(c, t)
  {
    MinItem(heap, c.byDesc);
    MergeStepRead(runs, pos, heap, emitted, inserted, c.byDesc, m);
    ReadAtAdvance(runs, pos, fds, heap[m].index);
  }

  /** The merge part of the invariant holds of a state whose fields satisfy it. */
  lemma MergePhaseOf(c: Config, t: SorterState, runs: seq<seq<Row>>, pos: seq<nat>, heap: seq<Item>,
                     fds: seq<nat>, emitted: seq<Row>, inserted: multiset<Row>)
    requires t.buf == [] && t.runs == runs && t.pos == pos && t.heap == heap && t.fds == fds
    requires t.emitted == emitted && t.inserted == inserted
    requires MergeInv(runs, pos, heap, emitted, inserted, c.byDesc)
    requires (forall j :: 0 <= j < |runs| ==> AllFit(runs[j])) && ReadAt(runs, pos, fds)
    ensures MergePhase(c, t)
  {
  }

  /** Outputting a least heap entry and reading the next row of its run keeps the invariant. */
  lemma MergeReadKeeps(c: Config, s: SorterState, m: nat, t: SorterState)
    requires Inv(c, s) && !s.closed && s.fetched && s.files != [] && s.heap != []
    requires m == MinIndex(s.heap, ItemLess(c.byDesc))
    requires s.heap[m].index < |s.runs| && s.pos[s.heap[m].index] < |s.runs[s.heap[m].index]|
    requires var i := s.heap[m].index;
             t == s.(heap := RemoveAt(s.heap, m) + [Item(i, s.runs[i][s.pos[i]])],
                     fds := s.fds[i := RecordOffset(s.runs[i], s.pos[i] + 1)],
                     pos := s.pos[i := s.pos[i] + 1], emitted := s.emitted + [s.heap[m].row])
    ensures Inv(c, t) && Sorted(t.emitted, RowLess(c.byDesc))
  {
    MergeReadPhase(c, s, m, t);
  }

  /** Outputting a least heap entry whose run is used up keeps the invariant. */
  lemma MergeLastKeeps(c: Config, s: SorterState, m: nat, t: SorterState)
    requires Inv(c, s) && !s.closed && s.fetched && s.files != [] && s.heap != []
    requires m == MinIndex(s.heap, ItemLess(c.byDesc))
    requires s.heap[m].index < |s.runs| && s.pos[s.heap[m].index] == |s.runs[s.heap[m].index]|
    requires t == s.(heap := RemoveAt(s.heap, m), emitted := s.emitted + [s.heap[m].row])
    ensures Inv(c, t) && Sorted(t.emitted, RowLess(c.byDesc))
  {
    MinItem(s.heap, c.byDesc);
    MergeStepLast(s.runs, s.pos, s.heap, s.emitted, s.inserted, c.byDesc, m);
    assert MergePhase(c, t);
  }

  /** A merge step with entries left in the heap outputs a least one and keeps the invariant. */
  lemma MergePopKeeps(c: Config, s: SorterState, r: (SorterState, Out))
    requires Inv(c, s) && !s.closed && s.fetched && s.files != [] && s.heap != []
    requires Shape(s) && r == MergeStep(c, s)
    ensures Inv(c, r.0) && r.0.inserted == s.inserted && !r.0.closed && r.0.fetched
    ensures Sorted(r.0.emitted, RowLess(c.byDesc))
    ensures r.1.Out? && r.0.emitted == s.emitted + [r.1.row]
  {
    var m := MinIndex(s.heap, ItemLess(c.byDesc));
    var i := s.heap[m].index;
    MergeFile(c, s, i);
    FetchAt(s.disk[s.files[i]], s.fds[i], s.runs[i], s.pos[i], c.keySize, c.valSize);
    assert PopMin(c, s) == (s.(heap := RemoveAt(s.heap, m)), s.heap[m]);
    if s.pos[i] < |s.runs[i]| {
      MergeReadKeeps(c, s, m, r.0);
    } else {
      MergeLastKeeps(c, s, m, r.0);
    }
  }

  /**
   * One merge step keeps the invariant and never fails: it outputs a row
   * no earlier row exceeds, and ends only once every row put in has been
   * output.
   */
  lemma MergeStepKeeps(c: Config, s: SorterState, r: (SorterState, Out))
    requires Inv(c, s) && !s.closed && s.fetched && s.files != []
    requires Shape(s) && r == MergeStep(c, s)
    ensures Inv(c, r.0) && r.0.inserted == s.inserted && !r.1.Error? && !r.0.closed && r.0.fetched
    ensures Sorted(r.0.emitted, RowLess(c.byDesc))
    ensures r.1.Out? ==> r.0.emitted == s.emitted + [r.1.row]
    ensures r.1.End? ==> multiset(r.0.emitted) == s.inserted && r.0.emitted == s.emitted
  {
    if s.heap == [] {
      MergeDone(s.runs, s.pos, s.emitted, s.inserted, c.byDesc);
    } else {
      MergePopKeeps(c, s, r);
    }
  }

  /** The first merge step: the merge is started, then one step taken. */
  lemma StartThenMergeKeeps(c: Config, s: SorterState, r: (SorterState, Out))
    requires Inv(c, s) && !s.closed && !s.fetched && s.files != []
    requires Shape(s) && r == ExternalStep(c, s)
    ensures Inv(c, r.0) && r.0.inserted == s.inserted && !r.1.Error? && !r.0.closed && r.0.fetched
    ensures Sorted(r.0.emitted, RowLess(c.byDesc))
    ensures r.1.Out? ==> r.0.emitted == s.emitted + [r.1.row]
    ensures r.1.End? ==> multiset(r.0.emitted) == s.inserted && r.0.emitted == s.emitted
  {
    var st := Started(c, s);
    StartedKeeps(c, s, st);
    InvShape(c, st.0);
    assert s.emitted == [];
    MergeStepKeeps(c, st.0, r);
  }

  /** The merge path of `Output` keeps the invariant and never fails. */
  lemma ExternalKeeps(c: Config, s: SorterState, r: (SorterState, Out))
    requires Inv(c, s) && !s.closed && s.files != []
    requires Shape(s) && r == ExternalStep(c, s)
    ensures Inv(c, r.0) && r.0.inserted == s.inserted && !r.1.Error? && !r.0.closed && r.0.fetched
    ensures Sorted(r.0.emitted, RowLess(c.byDesc))
    ensures r.1.Out? ==> r.0.emitted == s.emitted + [r.1.row]
    ensures r.1.End? ==> multiset(r.0.emitted) == s.inserted && r.0.emitted == s.emitted
  {
    if s.fetched {
      MergeStepKeeps(c, s, r);
    } else {
      StartThenMergeKeeps(c, s, r);
    }
  }

  /**
   * `Output` keeps the invariant and never loses a row: it fails exactly
   * when the sorter is closed, and otherwise gives out the rows put in, in
   * sorted order, one per call, followed by the end once all of them have
   * been output.
   */
  lemma OutputKeeps(c: Config, s: SorterState, r: (SorterState, Out))
    requires Inv(c, s) && Shape(s) && r == OutputStep(c, s)
    ensures Inv(c, r.0) && r.0.inserted == s.inserted
    ensures r.1.Error? <==> s.closed
    ensures s.closed ==> r.0 == s
    ensures !s.closed ==> r.0.fetched && Sorted(r.0.emitted, RowLess(c.byDesc))
    ensures r.1.Out? ==> r.0.emitted == s.emitted + [r.1.row]
    ensures r.1.End? ==> multiset(r.0.emitted) == s.inserted && r.0.emitted == s.emitted
  {
    if s.closed {
    } else if s.files == [] {
      InternalKeeps(c, s, r);
    } else {
      ExternalKeeps(c, s, r);
    }
  }

  /** Without run files, once the end is reported the next call reports it again. */
  lemma InternalEndRepeats(c: Config, s: SorterState, r: (SorterState, Out))
    requires Shape(s) && !s.closed && s.files == [] && r == InternalStep(c, s) && r.1.End?
    ensures Shape(r.0) && OutputStep(c, r.0) == (r.0, End)
  {
    var t := if s.fetched then s else s.(buf := Sort(s.buf, RowLess(c.byDesc)), fetched := true);
    assert r.0 == t && t.cursor >= |t.buf|;
  }

  /** During a merge, once the end is reported the heap is empty and the next call reports the end again. */
  lemma MergeEndRepeats(c: Config, s: SorterState, r: (SorterState, Out))
    requires Shape(s) && !s.closed && s.files != [] && r == ExternalStep(c, s) && r.1.End?
    ensures Shape(r.0) && OutputStep(c, r.0) == (r.0, End)
  {
    var t := if s.fetched then s else Started(c, s).0;
    assert r == MergeStep(c, t) && Shape(t) && !t.closed && t.fetched && t.files != [];
    assert t.heap == [];
  }

  /** Once `Output` has reported the end, every later call reports the end again and changes nothing. */
  lemma EndRepeats(c: Config, s: SorterState, r: (SorterState, Out))
    requires Shape(s) && r == OutputStep(c, s) && r.1.End?
    ensures Shape(r.0) && OutputStep(c, r.0) == (r.0, End)
  {
    if s.files == [] {
      InternalEndRepeats(c, s, r);
    } else {
      MergeEndRepeats(c, s, r);
    }
  }
}
