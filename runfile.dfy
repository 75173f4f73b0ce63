/**
 * The byte layout of the file sorter's run files (`flushToFile` and
 * `fetchNextRow` in sql/util/filesort/filesort.go): each row is an 8-byte
 * big-endian body length followed by the body, the key, value and handle
 * datums in the key encoding.
 */
module RunFiles {
  import opened Encoding
  import opened Datums
  import opened SortRows
  import opened Outcomes
  import opened DatumCodec

  /** The datums a row is stored as: its key, its value, then its handle as an integer. */
  function RowDatums(row: Row): seq<Datum>
  {
    row.key + row.val + [Int(row.handle)]
  }

  function RecordBody(row: Row): seq<byte>
  {
    EncodeDatums(RowDatums(row))
  }

  /** The row's stored body fits the length header (a Go slice length is a non-negative `int`). */
  predicate Fits(row: Row)
  {
    DatumsSize(RowDatums(row)) <= MaxInt64
  }

  /** A row has the shape the sorter was built for. */
  predicate WellFormed(row: Row, keySize: nat, valSize: nat)
  {
    |row.key| == keySize && |row.val| == valSize && Fits(row)
  }

  /** Every row of a run fits its header. */
  predicate AllFit(rows: seq<Row>)
  {
    forall i :: 0 <= i < |rows| ==> Fits(rows[i])
  }

  /** Every row of a run has the shape the sorter was built for. */
  predicate AllWellFormed(rows: seq<Row>, keySize: nat, valSize: nat)
  {
    AllFit(rows) && forall i :: 0 <= i < |rows| ==> |rows[i].key| == keySize && |rows[i].val| == valSize
  }

  /** One record of a run file: header with the body length, then the body. */
  function EncodeRecord(row: Row): (r: seq<byte>)
    requires Fits(row)
    ensures |r| >= 9
  {
    EncodeDatumsSize(RowDatums(row));
    Uint64Bytes(|RecordBody(row)|) + RecordBody(row)
  }

  /** The first n byte strings of `parts`, one after the other. */
  function Concatenation(parts: seq<seq<byte>>, n: nat): seq<byte>
    requires n <= |parts|
  {
    if n == 0 then [] else Concatenation(parts, n - 1) + parts[n - 1]
  }

  /** The record of each row of a run. */
  function Records(rows: seq<Row>): seq<seq<byte>>
    requires AllFit(rows)
  {
    seq(|rows|, i requires 0 <= i < |rows| => EncodeRecord(rows[i]))
  }

  /** The first n records of a run file holding `rows`. */
  function EncodeRunBelow(rows: seq<Row>, n: nat): seq<byte>
    requires n <= |rows| && AllFit(rows)
  {
    Concatenation(Records(rows), n)
  }

  /** The contents of a run file holding `rows` in order. */
  function EncodeRun(rows: seq<Row>): seq<byte>
    requires AllFit(rows)
  {
    EncodeRunBelow(rows, |rows|)
  }

  /** The outcome of reading one row from a run file at a byte offset. */
  datatype Fetch =
    | Eof                             // no bytes left: `fetchNextRow` returns (nil, nil)
    | Fetched(row: Row, next: nat)    // a row and the offset after it
    | Failed(msg: string)

  /**
   * `fetchNextRow`: read the 8-byte header at `offset`, then as many bytes as
   * it announces, and decode them into key, value and handle.
   *
   * Three inputs make the source panic rather than return an error: a
   * header above the largest `int64` (the length turns negative before the
   * buffer is made), a record holding fewer datums than the key, the value
   * and the handle need (indexing past the decoded slice), and a handle
   * that is not an integer.  The model gives `Failed` for each.  None of
   * them occurs in a file the sorter writes itself (`FetchRecord` below).
   */
  function ReadRow(file: seq<byte>, offset: nat, keySize: nat, valSize: nat): (f: Fetch)
    ensures f.Eof? <==> offset >= |file|
    ensures f.Fetched? ==> offset + 8 <= f.next <= |file|
    ensures f.Fetched? ==> |f.row.key| == keySize && |f.row.val| == valSize
  {
    if offset >= |file| then Eof
    else if |file| - offset < 8 then Failed("incorrect header")
    else
      var rowSize := FromBigEndian(file[offset..offset + 8]);
      var start := offset + 8;
      if rowSize > MaxInt64 then Failed("negative row size")
      else if rowSize > 0 && start == |file| then Failed("EOF")
      else if |file| - start < rowSize then Failed("incorrect row")
      else match DecodeDatums(file[start..start + rowSize])
        case None => Failed("malformed row")
        case Some(ds) =>
          if |ds| < keySize + valSize + 1 || !ds[keySize + valSize].Int? then Failed("malformed row")
          else Fetched(Row(ds[..keySize], ds[keySize..keySize + valSize], ds[keySize + valSize].i), start + rowSize)
  }

  /** Byte offset of the `i`-th record of a run. */
  function RecordOffset(rows: seq<Row>, i: nat): nat
    requires i <= |rows|
    requires AllFit(rows)
  {
    |EncodeRunBelow(rows, i)|
  }

  lemma AllFitConcat(a: seq<Row>, b: seq<Row>)
    requires AllFit(a) && AllFit(b)
    ensures AllFit(a + b)
  {
  }

  lemma ConcatAssociative<T>(x: seq<T>, y: seq<T>, z: seq<T>)
    ensures x + y + z == x + (y + z)
  {
  }

  /** The first m parts joined are the start of the first n parts joined, for m <= n. */
  lemma {:induction false} ConcatenationPrefix(parts: seq<seq<byte>>, m: nat, n: nat)
    requires m <= n <= |parts|
    ensures |Concatenation(parts, m)| <= |Concatenation(parts, n)|
    ensures Concatenation(parts, n)[..|Concatenation(parts, m)|] == Concatenation(parts, m)
  {
    if m < n {
      ConcatenationPrefix(parts, m, n - 1);
      var a, b := Concatenation(parts, n - 1), parts[n - 1];
      assert (a + b)[..|Concatenation(parts, m)|] == a[..|Concatenation(parts, m)|];
    }
  }

  /** Reading a record at its offset gives back the row stored there and the next record's offset. */
  lemma FetchRecord(file: seq<byte>, prefix: seq<byte>, record: seq<byte>, suffix: seq<byte>, row: Row,
                    keySize: nat, valSize: nat, offset: nat, next: nat)
    requires WellFormed(row, keySize, valSize)
    requires record == EncodeRecord(row) && file == prefix + record + suffix
    requires offset == |prefix| && next == |prefix| + |record|
    ensures ReadRow(file, offset, keySize, valSize) == Fetched(row, next)
  {
    var body := RecordBody(row);
    RecordSlices(file, prefix, record, suffix, row);
    Uint64BytesRoundTrip(|body|);
    DecodeEncodeDatums(RowDatums(row));
    RowDatumsParts(row);
  }

  /** A row's key, value and handle can be read back from its datums. */
  lemma RowDatumsParts(row: Row)
    ensures var ds, k, v := RowDatums(row), |row.key|, |row.val|;
            && |ds| == k + v + 1 && ds[..k] == row.key && ds[k..k + v] == row.val && ds[k + v] == Int(row.handle)
  {
    var ds, k, v := RowDatums(row), |row.key|, |row.val|;
    assert ds[..k] == row.key;
    assert ds[k..k + v] == row.val;
  }

  /** Within a file, a record's header holds its body's length, and the body follows it. */
  lemma RecordSlices(file: seq<byte>, prefix: seq<byte>, record: seq<byte>, suffix: seq<byte>, row: Row)
    requires Fits(row) && record == EncodeRecord(row) && file == prefix + record + suffix
    ensures |RecordBody(row)| <= MaxInt64 && |record| == 8 + |RecordBody(row)|
    ensures |prefix| + 8 + |RecordBody(row)| <= |file|
    ensures file[|prefix|..|prefix| + 8] == Uint64Bytes(|RecordBody(row)|)
    ensures file[|prefix| + 8..|prefix| + 8 + |RecordBody(row)|] == RecordBody(row)
  {
    EncodeDatumsSize(RowDatums(row));
    Framed(prefix, Uint64Bytes(|RecordBody(row)|), RecordBody(row), suffix);
  }

  lemma Framed<T>(prefix: seq<T>, head: seq<T>, body: seq<T>, suffix: seq<T>)
    ensures var s := prefix + (head + body) + suffix;
            && s[|prefix|..|prefix| + |head|] == head
            && s[|prefix| + |head|..|prefix| + |head| + |body|] == body
  {
  }

  /** A run file is the records before the `i`-th, the `i`-th record, and the records after it. */
  lemma RunSplit(rows: seq<Row>, i: nat)
    requires i < |rows| && AllFit(rows)
    ensures Fits(rows[i]) && RecordOffset(rows, i + 1) == RecordOffset(rows, i) + |EncodeRecord(rows[i])|
    ensures var file := EncodeRun(rows);
            RecordOffset(rows, i + 1) <= |file|
            && file == EncodeRunBelow(rows, i) + EncodeRecord(rows[i]) + file[RecordOffset(rows, i + 1)..]
  {
    var file := EncodeRun(rows);
    ConcatenationPrefix(Records(rows), i + 1, |rows|);
    assert file == file[..RecordOffset(rows, i + 1)] + file[RecordOffset(rows, i + 1)..];
  }
}
