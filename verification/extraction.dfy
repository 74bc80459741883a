/**
  The row loop of `extract`: the rows of the market-capitalisation table,
  each given as the sequence of its `td` cell texts, become raw records.
  Fetching the page and locating the table are outside this model; the
  table arrives as an ordered sequence of rows.
 */
module Extraction {
  import opened Wrappers

  /** The stripped texts of a row's `td` cells, in document order. */
  type Row = seq<string>

  /** One extracted record: the columns `Name` and `MC_USD_Billion`, both still text. */
  datatype RawRecord = RawRecord(name: string, usdText: string)

  /** Indexing cell 1 or cell 2 of a row that is too short raises `IndexError`. */
  datatype ExtractError = CellIndexOutOfRange(row: nat, cells: nat)

  /**
    Documentation only: the column names of the data frame built from the
    extracted records, which the fields of `RawRecord` stand for, in order.
   */
  const Columns: seq<string> := ["Name", "MC_USD_Billion"]

  /** Text of the `IndexError` that Python raises for a list index out of range. */
  function ErrorMessage(e: ExtractError): string {
    "list index out of range"
  }

  /** A row the loop skips: it has no `td` cells (a header or separator row). */
  predicate IsSkipped(row: Row) {
    |row| == 0
  }

  /** A row the loop can process without raising: it is skipped or has cells 0, 1 and 2. */
  predicate Readable(row: Row) {
    |row| == 0 || |row| >= 3
  }

  /** The record read from a data row: cell 1 is the name, cell 2 the USD text. */
  function RecordOf(row: Row): (r: RawRecord)
    requires |row| >= 3
  {
    RawRecord(row[1], row[2])
  }

  /**
    Positions of the rows that hold at least one cell, in increasing order:
    the independent description of which rows produce a record.
   */
  function DataPositions(rows: seq<Row>): (ps: seq<nat>)
    ensures forall k :: 0 <= k < |ps| ==> ps[k] < |rows| && !IsSkipped(rows[ps[k]])
    ensures forall k, l :: 0 <= k < l < |ps| ==> ps[k] < ps[l]
    ensures forall i :: 0 <= i < |rows| && !IsSkipped(rows[i]) ==> i in ps
    decreases |rows|
  {
    if |rows| == 0 then []
    else
      var front := DataPositions(rows[..|rows| - 1]);
      if IsSkipped(rows[|rows| - 1]) then front else front + [|rows| - 1]
  }

  /**
    The loop of `extract`, one row at a time in document order: a row with
    no cells is skipped, any other row appends the record of its cells 1
    and 2, and the first non-empty row with fewer than three cells raises.
   */
  function Extract(rows: seq<Row>): (r: Result<seq<RawRecord>, ExtractError>)
    decreases |rows|
  {
    if |rows| == 0 then Success([])
    else
      var front := rows[..|rows| - 1];
      var row := rows[|rows| - 1];
      StepRow(Extract(front), row, |rows| - 1)
  }

  /** One turn of the loop: the row at position `at` after the rows before it gave `sofar`. */
  function StepRow(sofar: Result<seq<RawRecord>, ExtractError>, row: Row, at: nat): Result<seq<RawRecord>, ExtractError> {
    match sofar
    case Failure(e) => Failure(e)
    case Success(done) =>
      if IsSkipped(row) then Success(done)
      else if |row| < 3 then Failure(CellIndexOutOfRange(at, |row|))
      else Success(done + [RecordOf(row)])
  }

  /** `Extract` succeeds exactly when no row has one or two cells. */
  lemma {:induction false} ExtractSucceedsIff(rows: seq<Row>)
    ensures Extract(rows).Success? <==> forall i :: 0 <= i < |rows| ==> Readable(rows[i])
    decreases |rows|
  {
    if |rows| > 0 {
      var n := |rows| - 1;
      var front := rows[..n];
      ExtractSucceedsIff(front);
      assert forall i :: 0 <= i < n ==> front[i] == rows[i];
    }
  }

  /** A failing `Extract` names the first row the loop cannot read, and that row's cell count. */
  lemma {:induction false} ExtractFailsAtFirstBadRow(rows: seq<Row>)
    requires Extract(rows).Failure?
    ensures Extract(rows).error.row < |rows|
    ensures Extract(rows).error.cells == |rows[Extract(rows).error.row]|
    ensures !Readable(rows[Extract(rows).error.row])
    ensures forall i :: 0 <= i < Extract(rows).error.row ==> Readable(rows[i])
    decreases |rows|
  {
    var n := |rows| - 1;
    var front := rows[..n];
    assert forall i :: 0 <= i < n ==> front[i] == rows[i];
    if Extract(front).Failure? {
      ExtractFailsAtFirstBadRow(front);
    } else {
      ExtractSucceedsIff(front);
    }
  }

  /**
    A successful `Extract` yields one record per row that has cells, in
    document order, each read from that row's cells 1 and 2.
   */
  lemma {:induction false} ExtractRecords(rows: seq<Row>)
    requires Extract(rows).Success?
    ensures |Extract(rows).value| == |DataPositions(rows)|
    ensures forall k :: 0 <= k < |DataPositions(rows)| ==>
      |rows[DataPositions(rows)[k]]| >= 3 &&
      Extract(rows).value[k] == RecordOf(rows[DataPositions(rows)[k]])
    decreases |rows|
  {
    if |rows| > 0 {
      var n := |rows| - 1;
      var front := rows[..n];
      var row := rows[n];
      assert forall i :: 0 <= i < n ==> front[i] == rows[i];
      assert Extract(rows) == StepRow(Extract(front), row, n);
      ExtractRecords(front);
      var ps, ps' := DataPositions(front), DataPositions(rows);
      var done := Extract(front).value;
      if IsSkipped(row) {
        assert ps' == ps;
        assert Extract(rows).value == done;
      } else {
        assert ps' == ps + [n];
        assert Extract(rows).value == done + [RecordOf(row)];
      }
    }
  }
}

/** Facts about `Extraction.Extract` that relate several calls. */
module ExtractionFacts {
  import opened Wrappers
  import opened Extraction

  /** Moves an extraction error found in a later table fragment to its position in the whole table. */
  function Shift(e: ExtractError, offset: nat): ExtractError {
    CellIndexOutOfRange(e.row + offset, e.cells)
  }

  /** The outcome of extracting a table from the outcomes of its first part and of the rest. */
  function Combine(first: Result<seq<RawRecord>, ExtractError>, rest: Result<seq<RawRecord>, ExtractError>, offset: nat): Result<seq<RawRecord>, ExtractError> {
    match first
    case Failure(e) => Failure(e)
    case Success(x) =>
      match rest
      case Failure(e) => Failure(Shift(e, offset))
      case Success(y) => Success(x + y)
  }

  /** Processing one more row commutes with putting a first part in front. */
  lemma CombineStep(first: Result<seq<RawRecord>, ExtractError>, rest: Result<seq<RawRecord>, ExtractError>, row: Row, at: nat, offset: nat)
    ensures Combine(first, StepRow(rest, row, at), offset) == StepRow(Combine(first, rest, offset), row, at + offset)
  {
    if first.Success? && rest.Success? && !IsSkipped(row) && |row| >= 3 {
      assert first.value + (rest.value + [RecordOf(row)]) == (first.value + rest.value) + [RecordOf(row)];
    }
  }

  /**
    Extraction works row by row in document order: extracting two fragments
    of a table one after the other gives the records of the first followed
    by those of the second, and the first error met stops everything.
   */
  lemma {:induction false} ExtractConcat(a: seq<Row>, b: seq<Row>)
    ensures Extract(a + b) == Combine(Extract(a), Extract(b), |a|)
    decreases |b|
  {
    if |b| == 0 {
      assert a + b == a;
      match Extract(a)
      case Failure(e) =>
      case Success(x) => assert x + [] == x;
    } else {
      var n := |b| - 1;
      var b', last := b[..n], b[n];
      ExtractConcat(a, b');
      var c := a + b;
      assert c[..|c| - 1] == a + b';
      assert c[|c| - 1] == last;
      assert Extract(c) == StepRow(Extract(a + b'), last, |c| - 1);
      assert Extract(b) == StepRow(Extract(b'), last, n);
      CombineStep(Extract(a), Extract(b'), last, n, |a|);
    }
  }

  /** Two tables that differ at most in the rank cell (cell 0) of each row. */
  predicate SameExceptRank(a: seq<Row>, b: seq<Row>) {
    && |a| == |b|
    && forall i :: 0 <= i < |a| ==>
         |a[i]| == |b[i]| && forall j :: 1 <= j < |a[i]| ==> a[i][j] == b[i][j]
  }

  /** The rank cell never reaches the output: changing it changes neither the records nor the error. */
  lemma {:induction false} RankIgnored(a: seq<Row>, b: seq<Row>)
    requires SameExceptRank(a, b)
    ensures Extract(a) == Extract(b)
    decreases |a|
  {
    if |a| > 0 {
      var n := |a| - 1;
      assert SameExceptRank(a[..n], b[..n]);
      RankIgnored(a[..n], b[..n]);
      if |a[n]| >= 3 {
        assert a[n][1] == b[n][1] && a[n][2] == b[n][2];
      }
    }
  }

  /** A single row on its own: skipped, turned into one record, or rejected. */
  lemma ExtractOneRow(row: Row)
    ensures IsSkipped(row) ==> Extract([row]) == Success([])
    ensures |row| >= 3 ==> Extract([row]) == Success([RecordOf(row)])
    ensures 0 < |row| < 3 ==> Extract([row]) == Failure(CellIndexOutOfRange(0, |row|))
  {
    assert [row][..0] == [];
    assert Extract([row][..0]) == Success([]);
    if |row| >= 3 {
      assert [] + [RecordOf(row)] == [RecordOf(row)];
    }
  }
}
