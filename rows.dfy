/**
 * The two row readers of the import engine.  Both reopen the file on every call, so a
 * batch is a function of the file's contents, the offset and the batch size alone.
 */
module Rows {
  import opened Options

  /** One record as both readers hand it to the upsert: the five fields, in CSV column order. */
  datatype Record = Record(username: string, email: string, firstName: string, lastName: string, role: string)

  /**
   * An uploaded file as the two parsers see it: the rows `fgetcsv` returns one after another
   * (row 0 is the header), and the nodes the XPath query `//user` selects, or None when the
   * document does not load as XML.
   */
  datatype FileView = FileView(csvLines: seq<Record>, xmlUsers: Option<seq<Record>>)

  function Min(a: int, b: int): int { if a <= b then a else b }

  function Max(a: int, b: int): int { if a <= b then b else a }

  /**
   * Where the CSV handle stands after the skip loop: it reads `offset + 1` rows (the header and
   * the rows already imported; none at all for a negative offset), and stops moving at end of file.
   */
  function CsvStart(rows: nat, offset: int): nat {
    Min(Max(offset + 1, 0), rows)
  }

  /** The rows the CSV batch loop upserts: up to `batchSize` rows from where the skip loop stopped. */
  function CsvBatch(lines: seq<Record>, offset: int, batchSize: nat): seq<Record> {
    var start := CsvStart(|lines|, offset);
    lines[start..Min(start + batchSize, |lines|)]
  }

  /** PHP's array_slice(xs, offset, length) for a non-negative length; a negative offset counts from the end. */
  function ArraySlice<T>(xs: seq<T>, offset: int, length: nat): seq<T> {
    var start := if offset >= 0 then Min(offset, |xs|) else Max(|xs| + offset, 0);
    xs[start..Min(start + length, |xs|)]
  }

  /**
   * The records one call of the batch reader hands to the upsert, in the order it hands them;
   * None when the XML document does not load.  Any type other than "xml" is read as CSV.
   */
  function BatchRecords(f: FileView, fileType: string, offset: int, batchSize: nat): Option<seq<Record>> {
    if fileType == "xml" then
      match f.xmlUsers
      case None => None
      case Some(users) => Some(ArraySlice(users, offset, batchSize))
    else
      Some(CsvBatch(f.csvLines, offset, batchSize))
  }

  /** The count the CSV and XML branches of the row counter compute. */
  function TotalRows(f: FileView, fileType: string): Option<int> {
    if fileType == "xml" then
      match f.xmlUsers
      case None => None
      case Some(users) => Some(|users|)
    else
      Some(|f.csvLines| - 1)
  }

  /** The data records of a file, in file order: every `user` node, or every row after the header. */
  function DataRecords(f: FileView, fileType: string): Option<seq<Record>> {
    if fileType == "xml" then f.xmlUsers
    else if f.csvLines == [] then Some([])
    else Some(f.csvLines[1..])
  }

  /**
   * count_total_rows.  The XML branch counts the selected nodes; the CSV branch calls `fgetcsv`
   * until it returns false, counting rows, and subtracts one for the header.
   */
  method CountTotalRows(f: FileView, fileType: string) returns (count: Option<int>)
    ensures fileType == "xml" ==> count == (if f.xmlUsers.Some? then Some(|f.xmlUsers.value|) else None)
    ensures fileType != "xml" ==> count == Some(|f.csvLines| - 1)
  {
    if fileType == "xml" {
      match f.xmlUsers
      case None => count := None;
      case Some(users) => count := Some(|users|);
    } else {
      var rowCount := 0;
      var handle := 0;  // index of the row the next fgetcsv call returns
      while handle < |f.csvLines|
        invariant 0 <= handle <= |f.csvLines|
        invariant rowCount == handle
      {
        handle := handle + 1;
        rowCount := rowCount + 1;
      }
      count := Some(rowCount - 1);
    }
  }

  /**
   * The row count agrees with the data records: it is their number, except that a CSV file
   * without even a header row counts −1.
   */
  lemma TotalRowsCountsDataRecords(f: FileView, fileType: string)
    ensures TotalRows(f, fileType).Some? <==> DataRecords(f, fileType).Some?
    ensures DataRecords(f, fileType).Some? ==>
              Max(TotalRows(f, fileType).value, 0) == |DataRecords(f, fileType).value|
    ensures TotalRows(f, fileType) == Some(-1) <==> fileType != "xml" && f.csvLines == []
  {
  }

  /**
   * A batch, read from a non-negative offset, holds exactly min(batchSize, max(0, N − offset))
   * records, N being the row count: never more than the batch size, fewer only at end of file.
   */
  lemma BatchSizeBound(f: FileView, fileType: string, offset: int, batchSize: nat)
    requires offset >= 0
    requires TotalRows(f, fileType).Some?
    ensures BatchRecords(f, fileType, offset, batchSize).Some?
    ensures |BatchRecords(f, fileType, offset, batchSize).value|
            == Min(batchSize, Max(0, TotalRows(f, fileType).value - offset))
  {
    BatchFollowsFileOrder(f, fileType, offset, batchSize);
    TotalRowsCountsDataRecords(f, fileType);
  }

  /**
   * A batch read from a non-negative offset is the run of data records starting at record
   * number `offset`, in file order: the header and the `offset` records before it are skipped.
   */
  lemma BatchFollowsFileOrder(f: FileView, fileType: string, offset: int, batchSize: nat)
    requires offset >= 0
    requires DataRecords(f, fileType).Some?
    ensures var recs := DataRecords(f, fileType).value;
            BatchRecords(f, fileType, offset, batchSize)
            == Some(recs[Min(offset, |recs|)..Min(offset + batchSize, |recs|)])
  {
    if fileType != "xml" && f.csvLines != [] {
      var lines := f.csvLines;
      var recs := lines[1..];
      var lo, hi := Min(offset, |recs|), Min(offset + batchSize, |recs|);
      assert CsvStart(|lines|, offset) == lo + 1;
      assert Min(lo + 1 + batchSize, |lines|) == hi + 1;
      assert recs[lo..hi] == lines[lo + 1..hi + 1];
    }
  }

  /** A negative offset skips no row at all, so the CSV batch starts with the header row. */
  lemma NegativeOffsetRereadsHeader(lines: seq<Record>, offset: int, batchSize: nat)
    requires offset < 0 && lines != [] && batchSize > 0
    ensures CsvBatch(lines, offset, batchSize) != []
    ensures CsvBatch(lines, offset, batchSize)[0] == lines[0]
  {
  }

  /**
   * The batches a client reads when it starts at `offset` and always sends back, as its next
   * offset, the cumulative number of records processed, stopping once that number reaches the
   * number of records.  The first batch is read even when there is nothing to read.
   */
  function ClientBatches(recs: seq<Record>, offset: nat, batchSize: nat): seq<seq<Record>>
    requires batchSize > 0
    decreases |recs| - offset
  {
    var batch := recs[Min(offset, |recs|)..Min(offset + batchSize, |recs|)];
    if offset + |batch| >= |recs| then [batch]
    else [batch] + ClientBatches(recs, offset + |batch|, batchSize)
  }

  /** All the records of a sequence of batches, one batch after the other. */
  function Flatten(batches: seq<seq<Record>>): seq<Record> {
    if batches == [] then [] else batches[0] + Flatten(batches[1..])
  }

  /**
   * Driven from `offset` by the cumulative count, the batches visit every remaining record
   * exactly once and in file order (so their sizes sum to the number of records left); every
   * batch but the last is full.
   */
  lemma {:induction false} ClientBatchesCoverRecords(recs: seq<Record>, offset: nat, batchSize: nat)
    requires batchSize > 0 && offset <= |recs|
    ensures Flatten(ClientBatches(recs, offset, batchSize)) == recs[offset..]
    ensures var batches := ClientBatches(recs, offset, batchSize);
            forall i | 0 <= i < |batches| :: |batches[i]| <= batchSize
    ensures var batches := ClientBatches(recs, offset, batchSize);
            forall i | 0 <= i < |batches| - 1 :: |batches[i]| == batchSize
    decreases |recs| - offset
  {
    var batch := recs[offset..Min(offset + batchSize, |recs|)];
    var batches := ClientBatches(recs, offset, batchSize);
    if offset + |batch| >= |recs| {
      assert batches == [batch];
      assert batch == recs[offset..];
      assert Flatten(batches) == batch + Flatten([]);
    } else {
      var next := offset + |batch|;
      var rest := ClientBatches(recs, next, batchSize);
      assert batches == [batch] + rest;
      ClientBatchesCoverRecords(recs, next, batchSize);
      assert Flatten(batches) == batch + Flatten(rest);
      assert recs[offset..] == batch + recs[next..];
      assert |batch| == batchSize;
      forall i | 0 <= i < |batches|
        ensures |batches[i]| <= batchSize
      {
        if i > 0 { assert batches[i] == rest[i - 1]; }
      }
      forall i | 0 <= i < |batches| - 1
        ensures |batches[i]| == batchSize
      {
        if i > 0 { assert batches[i] == rest[i - 1]; }
      }
    }
  }

  /**
   * 1200 data records and the batch size of 500: the client sees batches of 500, 500 and 200
   * records, so the cumulative counts it sends back are 500, 1000 and 1200.
   */
  lemma TwelveHundredRecordsTakeThreeBatches(recs: seq<Record>)
    requires |recs| == 1200
    ensures var batches := ClientBatches(recs, 0, 500);
            && |batches| == 3
            && |batches[0]| == 500 && |batches[1]| == 500 && |batches[2]| == 200
  {
    var last := ClientBatches(recs, 1000, 500);
    assert last == [recs[1000..1200]];
    var middle := ClientBatches(recs, 500, 500);
    assert middle == [recs[500..1000]] + last;
    assert ClientBatches(recs, 0, 500) == [recs[0..500]] + middle;
  }
}
