/**
 The step result set and the lite result set as objects, refining `PagingSpec`.
 */
module LiteResultSet {
  import opened RdbErrno
  import opened RowMarshal
  import S = PagingSpec

  class StepResultSet {
    const rows: seq<Row>
    const faults: nat -> S.Fault
    var steps: nat
    var rowPos: int
    var rowCount: int
    var stmtPos: int

    constructor (rows: seq<Row>, faults: nat -> S.Fault)
      ensures View() == S.Fresh(rows, faults)
    {
      this.rows, this.faults, steps := rows, faults, 0;
      rowPos, rowCount, stmtPos := S.INIT_POSITION, S.INVALID_COUNT, -1;
    }

    function View(): S.Cursor
      reads this
    {
      S.Cursor(rows, faults, steps, rowPos, rowCount, stmtPos)
    }

    method Reset()
      modifies this
      ensures View() == S.Reset(old(View()))
    {
      rowPos, stmtPos := S.INIT_POSITION, -1;
    }

    method GoToNextRow() returns (code: int)
      modifies this
      ensures (View(), code) == S.GoToNextRow(old(View()))
    {
      var fault := faults(steps);
      steps := steps + 1;
      match fault {
        case Busy => return E_STEP_RESULT_QUERY_EXCEEDED;
        case Failed(error) =>
          Reset();
          rowPos := rowCount;
          return error;
        case None =>
      }
      if stmtPos + 1 < |rows| {
        stmtPos, rowPos := stmtPos + 1, rowPos + 1;
        return E_OK;
      }
      stmtPos := -1;
      if rowCount != S.INVALID_COUNT {
        rowPos := if rowCount != 0 then rowCount else rowPos;
      } else {
        rowPos := rowPos + 1;
        rowCount := rowPos;
      }
      return E_ROW_OUT_RANGE;
    }

    method GoToRow(position: int) returns (code: int)
      modifies this
      ensures (View(), code) == S.GoToRow(old(View()), position)
    {
      if position < 0 { return E_ROW_OUT_RANGE; }
      if position < rowPos { Reset(); }
      ghost var start := View();
      while position != rowPos
        invariant rowPos <= position
        invariant S.StepTo(View(), position) == S.StepTo(start, position)
        decreases position - rowPos
      {
        code := GoToNextRow();
        if code != E_OK { return; }
      }
      code := E_OK;
    }

    method GetRow() returns (row: Row, code: int)
      requires S.Valid(View())
      ensures code == E_OK || code == E_ROW_OUT_RANGE
      ensures code == E_OK <==> S.OnRow(View())
      ensures code == E_OK ==> 0 <= stmtPos < |rows| && row == rows[stmtPos]
    {
      if rowPos == S.INIT_POSITION || (rowCount != S.INVALID_COUNT && (rowCount == 0 || rowPos == rowCount)) {
        return map[], E_ROW_OUT_RANGE;
      }
      S.OnRowInRange(View());
      return rows[stmtPos], E_OK;
    }
  }

  /** `order` is the order in which the columns of a row are visited. */
  ghost predicate Orders(order: Row -> seq<string>) { forall row: Row :: Lists(order(row), row) }

  /** The C structures of a page, row by row. */
  ghost function Buckets(page: seq<Row>, order: Row -> seq<string>): (b: seq<ValuesBucketEx>)
    requires Orders(order)
    ensures |b| == |page| && forall i | 0 <= i < |page| :: b[i] == ToBucket(page[i], order(page[i]))
  {
    if page == [] then [] else [ToBucket(page[0], order(page[0]))] + Buckets(page[1..], order)
  }

  predicate ReadsBack(b: ValuesBucketEx, row: Row) { WellFormed(b) && FromBucket(b) == Defined(row) }

  /** The structures of a page read back as its rows exactly when every row survives marshalling. */
  lemma {:induction false} PageReadsBackIff(page: seq<Row>, order: Row -> seq<string>)
    requires Orders(order)
    ensures (forall i | 0 <= i < |page| :: ReadsBack(Buckets(page, order)[i], page[i])) <==>
            forall i | 0 <= i < |page| :: RowOk(page[i])
  {
    forall i | 0 <= i < |page| ensures ReadsBack(Buckets(page, order)[i], page[i]) <==> RowOk(page[i]) {
      RowRoundTripIff(page[i], order(page[i]));
    }
  }

  class LiteResultSetImpl {
    const order: Row -> seq<string>
    var resultSet: StepResultSet?

    constructor (resultSet: StepResultSet, order: Row -> seq<string>)
      ensures this.resultSet == resultSet && this.order == order
    {
      this.resultSet, this.order := resultSet, order;
    }

    method PreparePosition(cursor: StepResultSet, position: int) returns (code: int)
      modifies cursor
      ensures (cursor.View(), code) == S.PreparePosition(old(cursor.View()), position)
    {
      code := E_OK;
      if position != S.INIT_POSITION && position != cursor.rowPos {
        code := cursor.GoToRow(position);
      } else if cursor.rowPos == S.INIT_POSITION {
        code := cursor.GoToRow(0);
        if code == E_ROW_OUT_RANGE { return E_OK; }
      }
    }

    method FetchRowEntities(cursor: StepResultSet, maxCount: int) returns (code: int, page: seq<Row>)
      requires S.Valid(cursor.View())
      modifies cursor
      ensures (cursor.View(), code, page) == S.FetchRowEntities(old(cursor.View()), maxCount, [])
    {
      page := [];
      ghost var start := cursor.View();
      var i := 0;
      while i < maxCount
        invariant S.Valid(cursor.View())
        invariant 0 <= i && (i <= maxCount || i == 0)
        invariant S.FetchRowEntities(cursor.View(), maxCount - i, page) == S.FetchRowEntities(start, maxCount, [])
      {
        var row;
        row, code := cursor.GetRow();
        if code == E_ROW_OUT_RANGE { break; }
        page := page + [row];
        S.NextRowValid(cursor.View());
        code := cursor.GoToNextRow();
        if code == E_ROW_OUT_RANGE { break; }
        if code != E_OK { return; }
        i := i + 1;
      }
      code := E_OK;
    }

    method ConvertToCArrValuesBucket(page: seq<Row>) returns (out: seq<ValuesBucketEx>, code: int)
      requires Orders(order)
      ensures out == Buckets(S.Convert(page).0, order) && code == S.Convert(page).1
    {
      if page == [] { return [], E_OK; }
      if |page| > S.MAX_ROWS_COUNT { return [], E_INVALID_ARGS_NEW; }
      out := [];
      for i := 0 to |page|
        invariant |out| == i && forall j | 0 <= j < i :: out[j] == ToBucket(page[j], order(page[j]))
        invariant forall j | 0 <= j < i :: |page[j]| <= MAX_COLUMNS
      {
        var bucket := RowEntityToValuesBucketEx(page[i], order(page[i]));
        if bucket.size == ERROR_VALUE { return [], E_ERROR; }
        out := out + [bucket];
      }
      code := E_OK;
    }

    /**
     A closed set answers `E_ALREADY_CLOSED`; an open one hands out the structures of the page that `PagingSpec.GetRows`
     gives.
     */
    method GetRows(maxCount: int, position: int) returns (out: seq<ValuesBucketEx>, code: int)
      requires Orders(order) && (resultSet != null ==> S.Valid(resultSet.View()))
      modifies resultSet
      ensures resultSet == null ==> out == [] && code == E_ALREADY_CLOSED
      ensures resultSet != null ==>
        && S.Valid(resultSet.View())
        && var (next, page, result) := S.GetRows(old(resultSet.View()), maxCount, position);
           resultSet.View() == next && out == Buckets(page, order) && code == result
    {
      if resultSet == null { return [], E_ALREADY_CLOSED; }
      ghost var start := resultSet.View();
      S.GetRowsValid(start, maxCount, position);
      code := PreparePosition(resultSet, position);
      S.PrepareValid(start, position);
      if code != E_OK { return [], code; }
      var page;
      code, page := FetchRowEntities(resultSet, maxCount);
      if code != E_OK { return [], code; }
      out, code := ConvertToCArrValuesBucket(page);
    }
  }
}
