/** `importTransactionsFromCsv` of transactions.service.js: a streaming loop that
    maps rows, collects them in batches and inserts each batch skipping known
    ids, against inserting the rows one by one. */
module Import {
  import opened Collections
  import opened Csv
  import opened PaysimMapper

  const IMPORT_BATCH_SIZE: nat := 1000
  const MAX_REPORTED_ERRORS: nat := 50

  datatype ReportedError = ReportedError(row: int, error: RowError)

  datatype Summary = Summary(totalRows: int, inserted: int, skipped: int, failed: int, errors: seq<ReportedError>)

  datatype ImportError = MissingColumns(missing: seq<string>) | CouldNotParse | NoDataRows

  /** How the parser's stream ends. */
  datatype Ending = EndOfFile | Malformed

  type Transactions = map<string, Txn>

  /** The import's use of `mapRowToTransaction`; any mapping will do. */
  type RowMapper = RawRow -> Result<Txn, RowError>

  // ---- the specification: row by row ----------------------------------------------

  function InsertIfAbsent(table: Transactions, t: Txn): Transactions {
    if t.txnId in table then table else table[t.txnId := t]
  }

  function InsertAll(table: Transactions, ts: seq<Txn>): Transactions
    decreases |ts|
  {
    if ts == [] then table else InsertAll(InsertIfAbsent(table, ts[0]), ts[1..])
  }

  function IfUsable(m: Result<Txn, RowError>): seq<Txn> {
    if m.Ok? then [m.value] else []
  }

  function IfBad(m: Result<Txn, RowError>, line: int): seq<ReportedError> {
    if m.Err? then [ReportedError(line, m.error)] else []
  }

  /** The usable rows of a file, mapped, in order. */
  function Mapped(rows: seq<RawRow>, mapRow: RowMapper): seq<Txn> {
    if rows == [] then []
    else Mapped(rows[..|rows| - 1], mapRow) + IfUsable(mapRow(rows[|rows| - 1]))
  }

  /** The rows that cannot be used, with the line a spreadsheet shows them on: the
      header is line 1, so row `i` of the data is line `i + 2`. */
  function BadRows(rows: seq<RawRow>, mapRow: RowMapper): seq<ReportedError> {
    if rows == [] then []
    else BadRows(rows[..|rows| - 1], mapRow) + IfBad(mapRow(rows[|rows| - 1]), |rows| + 1)
  }

  function FirstErrors(errors: seq<ReportedError>): seq<ReportedError> {
    if |errors| <= MAX_REPORTED_ERRORS then errors else errors[..MAX_REPORTED_ERRORS]
  }

  /** The summary of inserting the rows of a file one by one. */
  function RowByRow(start: Transactions, rows: seq<RawRow>, mapRow: RowMapper): Summary {
    var good, bad := Mapped(rows, mapRow), BadRows(rows, mapRow);
    var inserted := |InsertAll(start, good)| - |start|;
    Summary(|rows|, inserted, |good| - inserted, |bad|, FirstErrors(bad))
  }

  lemma {:induction false} InsertAllAppend(table: Transactions, a: seq<Txn>, b: seq<Txn>)
    ensures InsertAll(table, a + b) == InsertAll(InsertAll(table, a), b)
    decreases |a|
  {
    if a == [] {
      assert a + b == b;
    } else {
      assert (a + b)[0] == a[0] && (a + b)[1..] == a[1..] + b;
      InsertAllAppend(InsertIfAbsent(table, a[0]), a[1..], b);
    }
  }

  lemma {:induction false} InsertAllGrows(table: Transactions, ts: seq<Txn>)
    ensures table.Keys <= InsertAll(table, ts).Keys
    ensures forall id :: id in table ==> InsertAll(table, ts)[id] == table[id]
    ensures |table| <= |InsertAll(table, ts)| <= |table| + |ts|
    ensures forall t :: t in ts ==> t.txnId in InsertAll(table, ts)
    decreases |ts|
  {
    if ts != [] {
      InsertAllGrows(InsertIfAbsent(table, ts[0]), ts[1..]);
      forall t | t in ts ensures t.txnId in InsertAll(table, ts) {
        assert t == ts[0] || t in ts[1..];
      }
    }
  }

  lemma {:induction false} InsertKnown(table: Transactions, ts: seq<Txn>)
    requires forall t :: t in ts ==> t.txnId in table
    ensures InsertAll(table, ts) == table
  {
    if ts != [] {
      InsertKnown(table, ts[1..]);
    }
  }

  lemma {:induction false} EveryRowCounts(rows: seq<RawRow>, mapRow: RowMapper)
    ensures |Mapped(rows, mapRow)| + |BadRows(rows, mapRow)| == |rows|
  {
    if rows != [] {
      EveryRowCounts(rows[..|rows| - 1], mapRow);
    }
  }

  /** Every entry is an unusable row with its line and its reason, in file order. */
  ghost predicate Reports(bad: seq<ReportedError>, rows: seq<RawRow>, mapRow: RowMapper) {
    && (forall k :: 0 <= k < |bad| ==> ReportsRow(bad[k], rows, mapRow))
    && (forall j, k :: 0 <= j < k < |bad| ==> bad[j].row < bad[k].row)
  }

  ghost predicate ReportsRow(e: ReportedError, rows: seq<RawRow>, mapRow: RowMapper) {
    2 <= e.row < |rows| + 2 && mapRow(rows[e.row - 2]) == Err(e.error)
  }

  /** The error list names only unusable rows ... */
  lemma {:induction false} BadRowsAreBad(rows: seq<RawRow>, mapRow: RowMapper)
    ensures Reports(BadRows(rows, mapRow), rows, mapRow)
  {
    if rows != [] {
      var front := rows[..|rows| - 1];
      BadRowsAreBad(front, mapRow);
      var bad, before := BadRows(rows, mapRow), BadRows(front, mapRow);
      forall k | 0 <= k < |bad| ensures ReportsRow(bad[k], rows, mapRow) {
        if k < |before| {
          assert bad[k] == before[k] && ReportsRow(before[k], front, mapRow);
        }
      }
      forall j, k | 0 <= j < k < |bad| ensures bad[j].row < bad[k].row {
        assert bad[j] == before[j] && ReportsRow(before[j], front, mapRow);
      }
    }
  }

  /** ... and every one of them. */
  lemma {:induction false} BadRowIsReported(rows: seq<RawRow>, mapRow: RowMapper, i: nat)
    requires i < |rows| && mapRow(rows[i]).Err?
    ensures ReportedError(i + 2, mapRow(rows[i]).error) in BadRows(rows, mapRow)
  {
    var front := rows[..|rows| - 1];
    if i < |front| {
      BadRowIsReported(front, mapRow, i);
    }
  }

  // ---- the code ------------------------------------------------------------------------

  /** `REQUIRED_CSV_HEADERS.filter((h) => !present.has(h))`. */
  function MissingFrom(required: seq<string>, present: set<string>): seq<string> {
    if required == [] then []
    else (if required[0] in present then [] else [required[0]]) + MissingFrom(required[1..], present)
  }

  function Trimmed(headers: seq<string>): set<string> {
    set i | 0 <= i < |headers| :: Trim(headers[i])
  }

  /** Some column is headed `h`, give or take blanks around it. */
  ghost predicate Heads(headers: seq<string>, h: string) {
    exists i :: 0 <= i < |headers| && Trim(headers[i]) == h
  }

  /** The file has every column an import needs. */
  ghost predicate Complete(headers: seq<string>) {
    && Heads(headers, "step") && Heads(headers, "type") && Heads(headers, "amount")
    && Heads(headers, "nameOrig") && Heads(headers, "oldbalanceOrg") && Heads(headers, "newbalanceOrig")
    && Heads(headers, "nameDest") && Heads(headers, "oldbalanceDest") && Heads(headers, "newbalanceDest")
  }

  /** What the refusal names: the required columns the file lacks, each once and in the
      order they are required. */
  ghost predicate NamesMissing(missing: seq<string>, headers: seq<string>) {
    && (forall h :: h in missing <==> h in REQUIRED_CSV_HEADERS && !Heads(headers, h))
    && Subsequence(missing, REQUIRED_CSV_HEADERS)
  }

  lemma {:induction false} MissingAre(required: seq<string>, present: set<string>)
    requires NoDuplicates(required)
    ensures forall h :: h in MissingFrom(required, present) <==> h in required && h !in present
    ensures Subsequence(MissingFrom(required, present), required)
  {
    if required != [] {
      var first, rest := required[0], required[1..];
      MissingAre(rest, present);
      assert required == [first] + rest;
      assert forall k :: 0 <= k < |rest| ==> rest[k] == required[k + 1];
      assert first !in rest;
      var missing := MissingFrom(rest, present);
      assert missing != [] ==> missing[0] in missing && missing[0] in rest;
      if first in present {
        assert MissingFrom(required, present) == [] + missing == missing;
      } else {
        assert ([first] + missing)[1..] == missing;
      }
    }
  }

  lemma RequiredAreDistinct()
    ensures NoDuplicates(REQUIRED_CSV_HEADERS)
  {
  }

  lemma NothingMissing(headers: seq<string>)
    ensures (forall h :: h in REQUIRED_CSV_HEADERS ==> Heads(headers, h)) <==> Complete(headers)
  {
    var all := REQUIRED_CSV_HEADERS;
    if forall h :: h in all ==> Heads(headers, h) {
      assert all[0] in all && all[1] in all && all[2] in all && all[3] in all && all[4] in all;
      assert all[5] in all && all[6] in all && all[7] in all && all[8] in all;
    }
  }

  /** `validateCsvHeaders`. */
  method ValidateCsvHeaders(headers: seq<string>) returns (missing: seq<string>)
    ensures NamesMissing(missing, headers) && (missing == [] <==> Complete(headers))
  {
    missing := MissingFrom(REQUIRED_CSV_HEADERS, Trimmed(headers));
    RequiredAreDistinct();
    MissingAre(REQUIRED_CSV_HEADERS, Trimmed(headers));
    assert forall h :: h in Trimmed(headers) <==> Heads(headers, h);
    assert missing != [] ==> missing[0] in missing;
    NothingMissing(headers);
  }

  /** `n` rows make a whole number of batches. */
  ghost predicate WholeBatches(n: nat, batchSize: nat)
    requires batchSize > 0
  {
    n == 0 || (n >= batchSize && WholeBatches(n - batchSize, batchSize))
  }

  class Importer {
    var table: Transactions
    var summary: Summary
    var batch: seq<Txn>

    /** The route's import: PaySim rows, a thousand to a batch. */
    method ImportTransactionsFromCsv(headers: seq<string>, rows: seq<RawRow>, ending: Ending, digest: string -> string)
      returns (result: Result<Summary, ImportError>, ghost landed: nat)
      requires batch == [] && summary == Summary(0, 0, 0, 0, [])
      modifies this
      ensures result.Ok? <==> ending.EndOfFile? && rows != [] && Complete(headers)
      ensures result.Ok? ==>
                var m: RowMapper := r => MapRow(r, digest);
                && table == InsertAll(old(table), Mapped(rows, m))
                && result.value == RowByRow(old(table), rows, m)
      ensures rows != [] && !Complete(headers) ==>
                && result.Err? && result.error.MissingColumns? && NamesMissing(result.error.missing, headers)
                && table == old(table)
      ensures rows == [] && ending.EndOfFile? ==> result == Err(NoDataRows) && table == old(table)
      ensures (rows == [] || Complete(headers)) && ending.Malformed? ==>
                var good := Mapped(rows, r => MapRow(r, digest));
                && result == Err(CouldNotParse)
                && WholeBatches(landed, 1000) && landed <= |good| < landed + 1000
                && table == InsertAll(old(table), good[..landed])
    {
      result, landed := ImportRows(headers, rows, ending, r => MapRow(r, digest), IMPORT_BATCH_SIZE);
    }

    constructor (table: Transactions)
      ensures this.table == table && summary == Summary(0, 0, 0, 0, []) && batch == []
    {
      this.table, summary, batch := table, Summary(0, 0, 0, 0, []), [];
    }

    /** `transaction.createMany({ data, skipDuplicates: true })`. */
    method CreateMany(data: seq<Txn>) returns (count: nat)
      modifies this`table
      ensures table == InsertAll(old(table), data)
      ensures count == |table| - |old(table)| && count <= |data|
    {
      count := 0;
      var i := 0;
      while i < |data|
        invariant 0 <= i <= |data| && count <= i
        invariant InsertAll(table, data[i..]) == InsertAll(old(table), data)
        invariant count == |table| - |old(table)|
      {
        assert data[i..][0] == data[i] && data[i..][1..] == data[i + 1..];
        if data[i].txnId !in table {
          table := table[data[i].txnId := data[i]];
          count := count + 1;
        }
        i := i + 1;
      }
      assert data[i..] == [];
    }

    /** What the streaming loop has established: `good` is what the rows so far map
        to, `bad` the rows reported, and the batch holds the tail of `good` that has
        not been inserted yet. */
    ghost predicate Progress(start: Transactions, good: seq<Txn>, bad: seq<ReportedError>, rows: nat)
      reads this
    {
      && |batch| <= |good| && batch == good[|good| - |batch|..]
      && table == InsertAll(start, good[..|good| - |batch|])
      && summary.totalRows == rows
      && summary.inserted == |table| - |start|
      && summary.inserted + summary.skipped == |good| - |batch|
      && summary.failed == |bad|
      && summary.errors == FirstErrors(bad)
    }

    /** `flush`: insert the batch, count what landed, empty it. */
    method Flush(ghost start: Transactions, ghost good: seq<Txn>, ghost bad: seq<ReportedError>, ghost rows: nat)
      requires Progress(start, good, bad, rows)
      modifies this
      ensures Progress(start, good, bad, rows) && batch == [] && table == InsertAll(start, good)
    {
      ghost var sent := good[..|good| - |batch|];
      assert sent + batch == good;
      assert good[..|good|] == good;
      if batch == [] {
        return;
      }
      InsertAllAppend(start, sent, batch);
      var count := CreateMany(batch);
      summary := summary.(inserted := summary.inserted + count, skipped := summary.skipped + (|batch| - count));
      batch := [];
    }

    /** A usable row joins the batch. */
    method Collect(t: Txn,
                   ghost start: Transactions, ghost good: seq<Txn>, ghost bad: seq<ReportedError>, ghost rows: nat)
      requires Progress(start, good, bad, rows)
      modifies this`batch, this`summary
      ensures Progress(start, good + [t], bad, rows + 1) && |batch| == |old(batch)| + 1
    {
      ghost var more := good + [t];
      batch := batch + [t];
      summary := summary.(totalRows := summary.totalRows + 1);
      assert more[..|more| - |batch|] == good[..|good| - |old(batch)|];
    }

    /** An unusable row is counted, and reported while there is room. */
    method Report(e: RowError,
                  ghost start: Transactions, ghost good: seq<Txn>, ghost bad: seq<ReportedError>, ghost rows: nat)
      requires Progress(start, good, bad, rows)
      modifies this`summary
      ensures Progress(start, good, bad + [ReportedError(rows + 2, e)], rows + 1) && batch == old(batch)
    {
      summary := summary.(totalRows := summary.totalRows + 1, failed := summary.failed + 1);
      if |summary.errors| < MAX_REPORTED_ERRORS {
        summary := summary.(errors := summary.errors + [ReportedError(summary.totalRows + 1, e)]);
      }
    }

    /** One turn of the loop: the row joins the batch or the report, and a full
        batch is flushed. */
    method TakeRow(m: Result<Txn, RowError>, batchSize: nat,
                   ghost start: Transactions, ghost good: seq<Txn>, ghost bad: seq<ReportedError>, ghost rows: nat)
      returns (ghost flushed: bool)
      requires Progress(start, good, bad, rows) && |batch| < batchSize
      modifies this
      ensures Progress(start, good + IfUsable(m), bad + IfBad(m, rows + 2), rows + 1)
      ensures |batch| < batchSize
      ensures |batch| + (if flushed then batchSize else 0) == |old(batch)| + |IfUsable(m)|
    {
      flushed := false;
      assert good + [] == good && bad + [] == bad;
      if m.Ok? {
        Collect(m.value, start, good, bad, rows);
        if |batch| >= batchSize {
          Flush(start, good + [m.value], bad, rows + 1);
          flushed := true;
        }
      } else {
        Report(m.error, start, good, bad, rows);
      }
    }

    /** The loop after `upto` rows: whole batches have landed, the rest waits. */
    ghost predicate Streaming(start: Transactions, upto: seq<RawRow>, mapRow: RowMapper, batchSize: nat, landed: nat)
      requires batchSize > 0
      reads this
    {
      && Progress(start, Mapped(upto, mapRow), BadRows(upto, mapRow), |upto|)
      && WholeBatches(landed, batchSize) && |batch| < batchSize && |Mapped(upto, mapRow)| == landed + |batch|
    }

    /** One row of the streaming loop. */
    method StreamRow(rows: seq<RawRow>, i: nat, mapRow: RowMapper, batchSize: nat,
                     ghost start: Transactions, ghost landed: nat) returns (ghost landed': nat)
      requires batchSize > 0 && i < |rows| && Streaming(start, rows[..i], mapRow, batchSize, landed)
      modifies this
      ensures Streaming(start, rows[..i + 1], mapRow, batchSize, landed')
    {
      OneMoreRow(rows, i, mapRow);
      ghost var good, bad := Mapped(rows[..i], mapRow), BadRows(rows[..i], mapRow);
      ghost var flushed := TakeRow(mapRow(rows[i]), batchSize, start, good, bad, i);
      landed' := landed;
      if flushed {
        OneMoreBatch(landed, batchSize);
        landed' := landed + batchSize;
      }
    }

    /** The streaming loop. */
    method StreamRows(rows: seq<RawRow>, mapRow: RowMapper, batchSize: nat) returns (ghost landed: nat)
      requires batchSize > 0 && batch == [] && summary == Summary(0, 0, 0, 0, [])
      modifies this
      ensures Streaming(old(table), rows, mapRow, batchSize, landed)
    {
      landed := 0;
      var i := 0;
      while i < |rows|
        invariant 0 <= i <= |rows| && Streaming(old(table), rows[..i], mapRow, batchSize, landed)
      {
        landed := StreamRow(rows, i, mapRow, batchSize, old(table), landed);
        i := i + 1;
      }
      assert rows[..i] == rows;
    }

    lemma LandedInWholeBatches(start: Transactions, rows: seq<RawRow>, mapRow: RowMapper, batchSize: nat, landed: nat)
      requires batchSize > 0 && Streaming(start, rows, mapRow, batchSize, landed)
      ensures WholeBatches(landed, batchSize) && landed <= |Mapped(rows, mapRow)| < landed + batchSize
      ensures table == InsertAll(start, Mapped(rows, mapRow)[..landed])
    {
    }

    lemma SummaryIsRowByRow(start: Transactions, rows: seq<RawRow>, mapRow: RowMapper)
      requires Progress(start, Mapped(rows, mapRow), BadRows(rows, mapRow), |rows|) && batch == []
      requires table == InsertAll(start, Mapped(rows, mapRow))
      ensures summary == RowByRow(start, rows, mapRow)
    {
    }

    /** The last flush and the answer. */
    method Conclude(rows: seq<RawRow>, ghost start: Transactions, ghost mapRow: RowMapper,
                    ghost batchSize: nat, ghost landed: nat)
      returns (result: Result<Summary, ImportError>)
      requires batchSize > 0 && Streaming(start, rows, mapRow, batchSize, landed)
      modifies this
      ensures table == InsertAll(start, Mapped(rows, mapRow))
      ensures result == if rows == [] then Err(NoDataRows) else Ok(RowByRow(start, rows, mapRow))
    {
      Flush(start, Mapped(rows, mapRow), BadRows(rows, mapRow), |rows|);
      SummaryIsRowByRow(start, rows, mapRow);
      if summary.totalRows == 0 {
        return Err(NoDataRows);
      }
      return Ok(summary);
    }

    /** The import of a file whose headers are in order. */
    method ImportStream(rows: seq<RawRow>, ending: Ending, mapRow: RowMapper, batchSize: nat)
      returns (result: Result<Summary, ImportError>, ghost landed: nat)
      requires batchSize > 0 && batch == [] && summary == Summary(0, 0, 0, 0, [])
      modifies this
      ensures ending.Malformed? ==>
                && result == Err(CouldNotParse)
                && WholeBatches(landed, batchSize) && landed <= |Mapped(rows, mapRow)| < landed + batchSize
                && table == InsertAll(old(table), Mapped(rows, mapRow)[..landed])
      ensures ending.EndOfFile? ==>
                && table == InsertAll(old(table), Mapped(rows, mapRow))
                && result == if rows == [] then Err(NoDataRows) else Ok(RowByRow(old(table), rows, mapRow))
    {
      landed := StreamRows(rows, mapRow, batchSize);
      match ending
      case Malformed =>
        LandedInWholeBatches(old(table), rows, mapRow, batchSize, landed);
        result := Err(CouldNotParse);
      case EndOfFile =>
        result := Conclude(rows, old(table), mapRow, batchSize, landed);
    }

    /** The whole import, for any batch size. A clean file leaves the table and the
        summary exactly as inserting its rows one by one would. A file the parser
        gives up on leaves whole batches only, as many as its usable rows filled.
        The headers are those of the first record, so a file without records never
        fails for its headers. */
    method ImportRows(headers: seq<string>, rows: seq<RawRow>, ending: Ending, mapRow: RowMapper, batchSize: nat)
      returns (result: Result<Summary, ImportError>, ghost landed: nat)
      requires batchSize > 0 && batch == [] && summary == Summary(0, 0, 0, 0, [])
      modifies this
      ensures rows != [] && !Complete(headers) ==>
                && result.Err? && result.error.MissingColumns? && NamesMissing(result.error.missing, headers)
                && table == old(table)
      ensures (rows == [] || Complete(headers)) && ending.Malformed? ==>
                var good := Mapped(rows, mapRow);
                && result == Err(CouldNotParse)
                && WholeBatches(landed, batchSize) && landed <= |good| < landed + batchSize
                && table == InsertAll(old(table), good[..landed])
      ensures rows == [] && ending.EndOfFile? ==> result == Err(NoDataRows) && table == old(table)
      ensures rows != [] && Complete(headers) && ending.EndOfFile? ==>
                && table == InsertAll(old(table), Mapped(rows, mapRow))
                && result == Ok(RowByRow(old(table), rows, mapRow))
    {
      landed := 0;
      if rows != [] {
        var missing := ValidateCsvHeaders(headers);
        if missing != [] {
          return Err(MissingColumns(missing)), landed;
        }
      }
      result, landed := ImportStream(rows, ending, mapRow, batchSize);
    }
  }

  lemma OneMoreBatch(landed: nat, batchSize: nat)
    requires batchSize > 0 && WholeBatches(landed, batchSize)
    ensures WholeBatches(landed + batchSize, batchSize)
  {
  }

  lemma OneMoreRow(rows: seq<RawRow>, i: nat, mapRow: RowMapper)
    requires i < |rows|
    ensures Mapped(rows[..i + 1], mapRow) == Mapped(rows[..i], mapRow) + IfUsable(mapRow(rows[i]))
    ensures BadRows(rows[..i + 1], mapRow) == BadRows(rows[..i], mapRow) + IfBad(mapRow(rows[i]), i + 2)
  {
    var upto := rows[..i + 1];
    assert upto[..|upto| - 1] == rows[..i] && upto[|upto| - 1] == rows[i];
  }

  // ---- what the summary means ------------------------------------------------------------

  /** Nothing is lost: inserted, skipped and failed rows add up to the file, the
      insertions are new ids, and the errors are the first fifty bad rows. */
  lemma SummaryAddsUp(start: Transactions, rows: seq<RawRow>, mapRow: RowMapper)
    ensures var s := RowByRow(start, rows, mapRow);
            && s.totalRows == s.inserted + s.skipped + s.failed
            && 0 <= s.inserted && 0 <= s.skipped && 0 <= s.failed
            && |s.errors| == (if s.failed <= 50 then s.failed else 50)
            && s.errors <= BadRows(rows, mapRow)
  {
    EveryRowCounts(rows, mapRow);
    InsertAllGrows(start, Mapped(rows, mapRow));
  }

  /** Importing the same file again changes nothing: every usable row is skipped. */
  lemma ReimportInsertsNothing(start: Transactions, rows: seq<RawRow>, mapRow: RowMapper)
    ensures var after := InsertAll(start, Mapped(rows, mapRow));
            && InsertAll(after, Mapped(rows, mapRow)) == after
            && RowByRow(after, rows, mapRow).inserted == 0
            && RowByRow(after, rows, mapRow).skipped == |Mapped(rows, mapRow)|
  {
    InsertAllGrows(start, Mapped(rows, mapRow));
    InsertKnown(InsertAll(start, Mapped(rows, mapRow)), Mapped(rows, mapRow));
  }

  /** Resuming after a file broke off: importing it whole afterwards gives the same
      table as if it had never broken. */
  lemma RetryAfterBreak(start: Transactions, rows: seq<RawRow>, mapRow: RowMapper, k: nat)
    requires k <= |Mapped(rows, mapRow)|
    ensures var good := Mapped(rows, mapRow);
            InsertAll(InsertAll(start, good[..k]), good) == InsertAll(start, good)
  {
    var good := Mapped(rows, mapRow);
    var head, tail := good[..k], good[k..];
    assert good == head + tail;
    InsertAllAppend(start, head, tail);
    InsertAllAppend(InsertAll(start, head), head, tail);
    InsertAllGrows(start, head);
    InsertKnown(InsertAll(start, head), head);
  }
}
