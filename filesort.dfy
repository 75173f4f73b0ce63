/**
 * The file sorter of sql/util/filesort/filesort.go: a state machine that
 * takes rows in (`Input`), spills every full in-memory buffer to a numbered
 * run file as a sorted run, and gives the rows back in key order
 * (`Output`), either from the buffer sorted once (no run file written) or
 * by a k-way merge of the run files; `Close` ends both phases.
 *
 * The file system is the `disk` field: a map from file name to contents.
 * An open file descriptor is its read offset (`fds`).
 */
module FileSort {
  import opened Outcomes
  import opened Encoding
  import opened Datums
  import opened Sorting
  import opened SortRows
  import opened DatumCodec
  import opened RunFiles
  import opened MergeState
  import opened Merging
  import opened SorterStates

  /** Whether `os.Stat` finds the work directory. */
  datatype DirStat = DirExists | DirMissing | StatFailed(msg: string)

  /** The sanity checks of `Builder.Build`, in their order: the first that fails gives the error. */
  function BuildError(hasSC: bool, keySize: int, valSize: int, bufSize: int, byDesc: seq<bool>, dir: DirStat): (r: Option<string>)
    ensures r.None? <==> hasSC && keySize == |byDesc| && keySize > 0 && valSize > 0 && bufSize > 0 && dir == DirExists
    ensures !hasSC ==> r == Some("StatementContext is nil")
    ensures hasSC && keySize != |byDesc| ==> r == Some("mismatch in key size and byDesc slice")
    ensures hasSC && keySize == |byDesc| && keySize <= 0 ==> r == Some("key size is not positive")
    ensures hasSC && keySize == |byDesc| && keySize > 0 && valSize <= 0 ==> r == Some("value size is not positive")
    ensures hasSC && keySize == |byDesc| && keySize > 0 && valSize > 0 && bufSize <= 0 ==>
              r == Some("buffer size is not positive")
    ensures hasSC && keySize == |byDesc| && keySize > 0 && valSize > 0 && bufSize > 0 ==>
              r == match dir
                   case DirMissing => Some("tmpDir does not exist")
                   case StatFailed(msg) => Some(msg)
                   case DirExists => None
  {
    if !hasSC then Some("StatementContext is nil")
    else if keySize != |byDesc| then Some("mismatch in key size and byDesc slice")
    else if keySize <= 0 then Some("key size is not positive")
    else if valSize <= 0 then Some("value size is not positive")
    else if bufSize <= 0 then Some("buffer size is not positive")
    else match dir
      case DirMissing => Some("tmpDir does not exist")
      case StatFailed(msg) => Some(msg)
      case DirExists => None
  }

  /**
   * The loop of `flushToFile`: each row's record is its body (the key, the
   * value and the handle, encoded) after an 8-byte big-endian length header.
   */
  method EncodeRows(rows: seq<Row>) returns (outputByte: seq<byte>)
    requires AllFit(rows)
    ensures outputByte == EncodeRun(rows)
  {
    outputByte := [];
    var i := 0;
    while i < |rows|
      invariant i <= |rows|
      invariant outputByte == EncodeRunBelow(rows, i)
    {
      var row := rows[i];
      var body := EncodeDatums(row.key);
      body := body + EncodeDatums(row.val);
      body := body + EncodeDatums([Int(row.handle)]);
      EncodeDatumsAppend(row.key, row.val);
      EncodeDatumsAppend(row.key + row.val, [Int(row.handle)]);
      assert body == RecordBody(row);
      EncodeDatumsSize(RowDatums(row));
      var head := Uint64Bytes(|body|);
      ghost var before := outputByte;
      outputByte := outputByte + head;
      outputByte := outputByte + body;
      ConcatAssociative(before, head, body);
      i := i + 1;
    }
  }

  /** `Builder`: the settings of a file sorter, set one by one, then checked by `Build`. */
  class Builder {
    var hasSC: bool   // whether a statement context is set
    var keySize: int
    var valSize: int
    var bufSize: int
    var byDesc: seq<bool>
    var tmpDir: string

    constructor ()
      ensures !hasSC && keySize == 0 && valSize == 0 && bufSize == 0 && byDesc == [] && tmpDir == ""
    {
      hasSC, keySize, valSize, bufSize, byDesc, tmpDir := false, 0, 0, 0, [], "";
    }

    method SetSC(present: bool) returns (b: Builder)
      modifies this`hasSC
      ensures b == this && hasSC == present
    {
      hasSC := present;
      b := this;
    }

    method SetSchema(keySize: int, valSize: int) returns (b: Builder)
      modifies this`keySize, this`valSize
      ensures b == this && this.keySize == keySize && this.valSize == valSize
    {
      this.keySize := keySize;
      this.valSize := valSize;
      b := this;
    }

    method SetBuf(bufSize: int) returns (b: Builder)
      modifies this`bufSize
      ensures b == this && this.bufSize == bufSize
    {
      this.bufSize := bufSize;
      b := this;
    }

    method SetDesc(byDesc: seq<bool>) returns (b: Builder)
      modifies this`byDesc
      ensures b == this && this.byDesc == byDesc
    {
      this.byDesc := byDesc;
      b := this;
    }

    method SetDir(tmpDir: string) returns (b: Builder)
      modifies this`tmpDir
      ensures b == this && this.tmpDir == tmpDir
    {
      this.tmpDir := tmpDir;
      b := this;
    }

    /**
     * `Build`: a new, empty sorter in its input phase when every check
     * passes; otherwise the first failing check's error and no sorter.
     */
    method Build(dir: DirStat, disk: map<string, seq<byte>>) returns (fs: FileSorter?, err: Option<string>)
      ensures err == BuildError(hasSC, keySize, valSize, bufSize, byDesc, dir)
      ensures fs != null <==> err.None?
      ensures fs != null ==> && fresh(fs)
                             && fs.Cfg() == Config(keySize, valSize, bufSize, byDesc, tmpDir)
                             && fs.State() == Initial(disk)
      ensures fs != null ==> fs.Valid()
    {
      err := BuildError(hasSC, keySize, valSize, bufSize, byDesc, dir);
      if err.Some? {
        return null, err;
      }
      fs := new FileSorter(keySize, valSize, bufSize, byDesc, tmpDir, disk);
      InitialInv(fs.Cfg(), disk);
    }
  }


  /**
   * `FileSorter`: the settings, the fields of the Go struct, the file
   * system, and as ghost fields the records `SorterState` keeps beside
   * them.  Every method moves the sorter exactly as the step function of
   * its operation says; `SorterStates` proves what those steps keep.
   */
  class FileSorter {
    const keySize: nat
    const valSize: nat
    const bufSize: nat
    const byDesc: seq<bool>
    const tmpDir: string
    var buf: seq<Row>          // the rows held in memory
    var files: seq<string>     // the run files written, in order
    var cursor: nat            // the next buffer row to output, without run files
    var closed: bool
    var fetched: bool          // whether `Output` has started
    var heap: seq<Item>        // `rowHeap.ims`, one entry per unfinished run
    var fds: seq<nat>          // the read offset of each opened run file
    var fileCount: nat
    var disk: map<string, seq<byte>>
    ghost var runs: seq<seq<Row>>      // the rows of each run file, in file order
    ghost var pos: seq<nat>            // how many rows of each run have been read
    ghost var inserted: multiset<Row>  // every row put in
    ghost var emitted: seq<Row>        // every row output, in order

    function Cfg(): Config
    {
      Config(keySize, valSize, bufSize, byDesc, tmpDir)
    }

    ghost function State(): SorterState
      reads this
    {
      SorterState(buf, files, cursor, closed, fetched, heap, fds, fileCount, disk, runs, pos, inserted, emitted)
    }

    /** The sorter's invariant on its current state; every operation keeps it (`SorterStates`). */
    ghost predicate Valid()
      reads this
    {
      Inv(Cfg(), State())
    }

    constructor (keySize: nat, valSize: nat, bufSize: nat, byDesc: seq<bool>, tmpDir: string, disk: map<string, seq<byte>>)
      ensures Cfg() == Config(keySize, valSize, bufSize, byDesc, tmpDir) && State() == Initial(disk)
    {
      this.keySize, this.valSize, this.bufSize := keySize, valSize, bufSize;
      this.byDesc, this.tmpDir, this.disk := byDesc, tmpDir, disk;
      buf, files, cursor, closed, fetched := [], [], 0, false, false;
      heap, fds, fileCount := [], [], 0;
      runs, pos, inserted, emitted := [], [], multiset{}, [];
    }

    /** `getUniqueFileName`: the next run file name; the file count goes up by one. */
    method GetUniqueFileName() returns (name: string)
      modifies this`fileCount
      ensures name == RunFileName(tmpDir, old(fileCount)) && fileCount == old(fileCount) + 1
    {
      name := RunFileName(tmpDir, fileCount);
      fileCount := fileCount + 1;
    }

    /**
     * `flushToFile`: sort the buffer and write it as a new run file, one
     * record (length header, then body) per row; the buffer is emptied and
     * the file recorded.
     */
    method FlushToFile()
      requires AllFit(buf)
      modifies this
      ensures State() == Flushed(Cfg(), old(State()))
    {
      FlushedFields(Cfg(), State());
      var run := Sort(buf, RowLess(byDesc));
      buf := run;                            // sort.Sort(fs)
      WriteRun(run);
      buf := [];
    }

    /** The writing half of `flushToFile`: the rows go to the next run file, which is recorded. */
    method WriteRun(run: seq<Row>)
      requires AllFit(run)
      modifies this`fileCount, this`disk, this`files, this`runs
      ensures var name := RunFileName(tmpDir, old(fileCount));
              && fileCount == old(fileCount) + 1 && files == old(files) + [name]
              && disk == old(disk)[name := EncodeRun(run)] && runs == old(runs) + [run]
    {
      var fileName := GetUniqueFileName();
      var outputByte := EncodeRows(run);
      disk := disk[fileName := outputByte];
      files := files + [fileName];
      runs := runs + [run];
    }

    /**
     * `Input`: add one row.  After `Close`, after `Output` has started, or
     * with a key or value of the wrong length it fails and changes nothing;
     * otherwise a full buffer is first flushed to a run file, and the row
     * is appended to the buffer.
     */
    method Input(key: seq<Datum>, val: seq<Datum>, handle: int64) returns (err: Option<string>)
      requires Shape(State()) && Fits(Row(key, val, handle))
      modifies this
      ensures (State(), err) == InputStep(Cfg(), old(State()), Row(key, val, handle))
      ensures old(Valid()) ==> Valid()
    {
      if Valid() {
        InputKeeps(Cfg(), State(), Row(key, val, handle));
      }
      err := InputError(closed, fetched, |key|, |val|, keySize, valSize);
      if err.Some? {
        return;
      }
      if |buf| >= bufSize {
        FlushToFile();
      }
      var row := Row(key, val, handle);
      buf := buf + [row];
      inserted := inserted + multiset{row};
    }

    /** `fetchNextRow`: read the next record of run file `index` from its read offset. */
    method FetchNextRow(index: nat) returns (f: Fetch)
      requires index < |fds| && index < |files| && files[index] in disk
      modifies this`fds
      ensures (State(), f) == ReadNext(Cfg(), old(State()), index)
    {
      f := ReadRow(disk[files[index]], fds[index], keySize, valSize);
      if f.Fetched? {
        fds := fds[index := f.next];
      }
    }

    /** `heap.Pop`: take a least entry off the heap. */
    method HeapPop() returns (im: Item)
      requires heap != []
      modifies this`heap
      ensures (State(), im) == PopMin(Cfg(), old(State()))
    {
      var m := MinIndex(heap, ItemLess(byDesc));
      im := heap[m];
      heap := RemoveAt(heap, m);
    }

    /** `heap.Push` of the row just read from run file `index`. */
    method HeapPush(index: nat, row: Row)
      requires index < |pos|
      modifies this`heap, this`pos
      ensures State() == PushItem(old(State()), index, row)
    {
      heap := heap + [Item(index, row)];
      pos := pos[index := pos[index] + 1];
    }

    /** `openAllFiles`: open every run file, reading from its start. */
    method OpenAllFiles()
      modifies this`fds, this`pos
      ensures State() == Opened(old(State()))
    {
      var i := 0;
      while i < |files|
        invariant i <= |files| && fds == old(fds) + Zeros(i)
      {
        fds := fds + [0];
        i := i + 1;
        assert fds == old(fds) + Zeros(i);
      }
      pos := Zeros(|files|);
    }

    /** `closeAllFiles`: close the run files and remove the work directory with them. */
    method CloseAllFiles()
      modifies this`disk
      ensures disk == RemoveAll(old(disk), tmpDir)
      ensures forall f :: f in disk <==> f in old(disk) && !InDir(f, tmpDir)
    {
      disk := RemoveAll(disk, tmpDir);
    }

    /**
     * `Close`: empty the buffer, remove the run files and end both phases;
     * closing twice is an error.
     */
    method Close() returns (err: Option<string>)
      modifies this
      ensures (State(), err) == CloseStep(Cfg(), old(State()))
      ensures old(Valid()) ==> Valid()
    {
      if Valid() {
        CloseKeeps(Cfg(), State());
      }
      if closed {
        return Some("FileSorter has been closed");
      }
      buf := [];
      CloseAllFiles();
      closed := true;
      err := None;
    }

    /**
     * `internalSort`: without run files, sort the buffer on the first call,
     * then output the buffer row by row, then the end.
     */
    method InternalSort() returns (o: Out)
      modifies this`buf, this`fetched, this`cursor, this`emitted
      ensures (State(), o) == InternalStep(Cfg(), old(State()))
    {
      if !fetched {
        buf := Sort(buf, RowLess(byDesc));     // sort.Sort(fs)
        fetched := true;
      }
      if cursor < |buf| {
        var r := buf[cursor];
        cursor := cursor + 1;
        emitted := emitted + [r];
        return Out(r);
      }
      return End;
    }

    /**
     * The priming loop of `externalSort`: read the first record of each run
     * file into the heap; a failed read or a file without a record ends it
     * with an error.
     */
    method PrimeHeap() returns (err: Option<string>)
      requires |fds| == |files| == |pos| && forall i :: 0 <= i < |files| ==> files[i] in disk
      modifies this`heap, this`fds, this`pos
      ensures (State(), err) == Prime(Cfg(), old(State()), 0)
    {
      ghost var s2 := State();
      var id := 0;
      while id < |fds|
        invariant id <= |fds| == |files| == |pos|
        invariant Prime(Cfg(), State(), id) == Prime(Cfg(), s2, 0)
        decreases |fds| - id
      {
        var f := FetchNextRow(id);
        match f {
          case Failed(msg) =>
            return Some(msg);
          case Eof =>
            return Some("file is empty");
          case Fetched(row, _) =>
            HeapPush(id, row);
        }
        id := id + 1;
      }
      err := None;
    }

    /**
     * The first call of `externalSort`: flush what is left in the buffer,
     * open every run file and prime the heap; once that succeeds, output
     * has started.
     */
    method StartMerge() returns (err: Option<string>)
      requires Shape(State()) && !closed && !fetched && files != []
      modifies this
      ensures (State(), err) == Started(Cfg(), old(State()))
    {
      if |buf| > 0 {
        FlushToFile();
        FlushedShape(Cfg(), old(State()));
      }
      OpenAllFiles();
      err := PrimeHeap();
      if err.None? {
        fetched := true;
      }
    }

    /**
     * The merge step of `externalSort`: pop a least entry off the heap,
     * read the next row of the entry's run into the heap, and output the
     * popped entry's row.  An empty heap is the end.
     */
    method MergeNext() returns (o: Out)
      requires Shape(State()) && !closed && fetched && files != []
      modifies this`heap, this`fds, this`pos, this`emitted
      ensures (State(), o) == MergeStep(Cfg(), old(State()))
    {
      if |heap| > 0 {
        var im := HeapPop();
        var f := FetchNextRow(im.index);
        match f {
          case Failed(msg) =>
            return Error(msg);
          case Eof =>
          case Fetched(row, _) =>
            HeapPush(im.index, row);
        }
        emitted := emitted + [im.row];
        return Out(im.row);
      }
      return End;
    }

    /** `externalSort`: start the merge on the first call, then take one merge step. */
    method ExternalSort() returns (o: Out)
      requires Shape(State()) && !closed && files != []
      modifies this
      ensures (State(), o) == ExternalStep(Cfg(), old(State()))
    {
      if !fetched {
        var err := StartMerge();
        if err.Some? {
          return Error(err.value);
        }
      }
      o := MergeNext();
    }

    /**
     * `Output`: the next row in key order, or the end.  After `Close` it
     * fails and changes nothing; without run files the rows come from the
     * buffer, otherwise from the merge of the run files.
     */
    method Output() returns (o: Out)
      requires Shape(State())
      modifies this
      ensures (State(), o) == OutputStep(Cfg(), old(State()))
      ensures old(Valid()) ==> Valid()
    {
      if Valid() {
        OutputKeeps(Cfg(), State(), OutputStep(Cfg(), State()));
      }
      if closed {
        return Error("FileSorter has been closed");
      }
      if |files| == 0 {
        o := InternalSort();
      } else {
        o := ExternalSort();
      }
    }
  }
}
