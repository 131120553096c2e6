/**
 Cursor paging: the step result set without a row count, and the lite result set that pages over it.
 */
module PagingSpec {
  import opened RdbErrno
  import opened RowMarshal

  const INIT_POSITION: int := -1
  const INVALID_COUNT: int := -1
  const MAX_ROWS_COUNT: nat := 32766

  type StepError = code: int | code != E_OK && code != E_ROW_OUT_RANGE witness E_ERROR

  datatype Fault = None | Busy | Failed(code: StepError)

  /**
   The result set over the rows of a prepared statement. `stmtPos` is the statement's own position, -1 when a step
   would give the first row; a statement that ran past its last row starts over at the next step.
   `faults(k)` is what goes wrong in the `k`-th step, if anything.
   */
  datatype Cursor = Cursor(
    rows: seq<Row>, faults: nat -> Fault, steps: nat, rowPos: int, rowCount: int, stmtPos: int)

  function Fresh(rows: seq<Row>, faults: nat -> Fault): Cursor {
    Cursor(rows, faults, 0, INIT_POSITION, INVALID_COUNT, -1)
  }

  /** What the position fields say about the statement, in every reachable state. */
  predicate Valid(c: Cursor) {
    var n := |c.rows|;
    && (c.rowCount == INVALID_COUNT || c.rowCount == n)
    && INIT_POSITION <= c.rowPos <= 2 * n
    && (c.rowPos >= n ==> c.rowCount == n)
    && (c.rowCount == 0 ==> c.rowPos == 0)
    && c.stmtPos == if c.rowPos < n then c.rowPos else c.rowPos - n - 1
  }

  function Reset(c: Cursor): Cursor { c.(rowPos := INIT_POSITION, stmtPos := -1) }

  function GoToNextRow(c: Cursor): (Cursor, int) {
    var fault := c.faults(c.steps);
    var c1 := c.(steps := c.steps + 1);
    if fault.Busy? then (c1, E_STEP_RESULT_QUERY_EXCEEDED)
    else if fault.Failed? then (Reset(c1).(rowPos := c.rowCount), fault.code)
    else if c.stmtPos + 1 < |c.rows| then (c1.(stmtPos := c.stmtPos + 1, rowPos := c.rowPos + 1), E_OK)
    else if c.rowCount != INVALID_COUNT then
      (c1.(stmtPos := -1, rowPos := if c.rowCount != 0 then c.rowCount else c.rowPos), E_ROW_OUT_RANGE)
    else (c1.(stmtPos := -1, rowPos := c.rowPos + 1, rowCount := c.rowPos + 1), E_ROW_OUT_RANGE)
  }

  /** Steps forward until the position is reached or a step does not succeed. */
  function StepTo(c: Cursor, position: int): (Cursor, int)
    requires c.rowPos <= position
    decreases position - c.rowPos
  {
    if position == c.rowPos then (c, E_OK)
    else
      var (next, code) := GoToNextRow(c);
      if code != E_OK then (next, code) else StepTo(next, position)
  }

  function GoToRow(c: Cursor, position: int): (Cursor, int) {
    if position < 0 then (c, E_ROW_OUT_RANGE)
    else StepTo(if position < c.rowPos then Reset(c) else c, position)
  }

  predicate OnRow(c: Cursor) {
    && c.rowPos != INIT_POSITION
    && !(c.rowCount != INVALID_COUNT && (c.rowCount == 0 || c.rowPos == c.rowCount))
  }

  lemma OnRowInRange(c: Cursor)
    requires Valid(c) && OnRow(c)
    ensures 0 <= c.stmtPos < |c.rows|
  {
  }

  function PreparePosition(c: Cursor, position: int): (Cursor, int) {
    if position != INIT_POSITION && position != c.rowPos then GoToRow(c, position)
    else if c.rowPos == INIT_POSITION then
      var (next, code) := GoToRow(c, 0);
      (next, if code == E_ROW_OUT_RANGE then E_OK else code)
    else (c, E_OK)
  }

  /** Up to `maxCount` rows from the current one on; a failure discards what was collected. */
  function FetchRowEntities(c: Cursor, maxCount: int, got: seq<Row>): (Cursor, int, seq<Row>)
    requires Valid(c)
    decreases maxCount
  {
    if maxCount <= 0 || !OnRow(c) then (c, E_OK, got)
    else
      OnRowInRange(c);
      var (next, code) := GoToNextRow(c);
      NextRowValid(c);
      var more := got + [c.rows[c.stmtPos]];
      if code == E_ROW_OUT_RANGE then (next, E_OK, more)
      else if code != E_OK then (next, code, more)
      else FetchRowEntities(next, maxCount - 1, more)
  }

  /** The page handed out: too many rows, or a row with too many columns, is an error and an empty page. */
  function Convert(page: seq<Row>): (seq<Row>, int) {
    if page == [] then ([], E_OK)
    else if |page| > MAX_ROWS_COUNT then ([], E_INVALID_ARGS_NEW)
    else if exists i | 0 <= i < |page| :: |page[i]| > MAX_COLUMNS then ([], E_ERROR)
    else (page, E_OK)
  }

  function GetRows(c: Cursor, maxCount: int, position: int): (Cursor, seq<Row>, int)
    requires Valid(c)
  {
    var (ready, code) := PreparePosition(c, position);
    PrepareValid(c, position);
    if code != E_OK then (ready, [], code)
    else
      var (end, err, page) := FetchRowEntities(ready, maxCount, []);
      if err != E_OK then (end, [], err)
      else
        var (out, outCode) := Convert(page);
        (end, out, outCode)
  }

  // ---- every operation keeps the position fields consistent, failures included ----

  lemma NextRowValid(c: Cursor)
    requires Valid(c)
    ensures Valid(GoToNextRow(c).0) && GoToNextRow(c).0.rows == c.rows && GoToNextRow(c).0.faults == c.faults
  {
  }

  lemma {:induction false} StepToValid(c: Cursor, position: int)
    requires Valid(c) && c.rowPos <= position
    ensures var t := StepTo(c, position).0; Valid(t) && t.rows == c.rows && t.faults == c.faults
    decreases position - c.rowPos
  {
    NextRowValid(c);
    if position != c.rowPos && GoToNextRow(c).1 == E_OK {
      StepToValid(GoToNextRow(c).0, position);
    }
  }

  lemma PrepareValid(c: Cursor, position: int)
    requires Valid(c)
    ensures var t := PreparePosition(c, position).0; Valid(t) && t.rows == c.rows && t.faults == c.faults
  {
    if position >= 0 { StepToValid(if position < c.rowPos then Reset(c) else c, position); }
    if c.rowPos <= 0 { StepToValid(c, 0); }
  }

  lemma {:induction false} FetchValid(c: Cursor, maxCount: int, got: seq<Row>)
    requires Valid(c)
    ensures var t := FetchRowEntities(c, maxCount, got).0; Valid(t) && t.rows == c.rows && t.faults == c.faults
    decreases maxCount
  {
    if maxCount > 0 && OnRow(c) {
      NextRowValid(c);
      FetchValid(GoToNextRow(c).0, maxCount - 1, got + [c.rows[c.stmtPos]]);
    }
  }

  lemma GetRowsValid(c: Cursor, maxCount: int, position: int)
    requires Valid(c)
    ensures var t := GetRows(c, maxCount, position).0; Valid(t) && t.rows == c.rows && t.faults == c.faults
  {
    PrepareValid(c, position);
    FetchValid(PreparePosition(c, position).0, maxCount, []);
  }

  // ---- what a page holds ----

  ghost predicate NoFaults(c: Cursor) { forall k: nat :: c.faults(k) == None }

  ghost predicate NarrowRows(rows: seq<Row>) { forall i | 0 <= i < |rows| :: |rows[i]| <= MAX_COLUMNS }

  /** A page small enough to be handed out. */
  ghost predicate Deliverable(page: seq<Row>) { |page| <= MAX_ROWS_COUNT && NarrowRows(page) }

  lemma ConvertIff(page: seq<Row>)
    ensures Convert(page) == (page, E_OK) <==> Deliverable(page)
    ensures Convert(page).1 == E_OK <==> Deliverable(page)
    ensures Convert(page).1 != E_OK ==> Convert(page).0 == []
    ensures !Deliverable(page) ==> Convert(page).1 == if |page| > 32766 then E_INVALID_ARGS_NEW else E_ERROR
  {
  }

  function Min(a: int, b: int): int { if a < b then a else b }

  /** Up to `k` rows from `from` on. */
  function Span(rows: seq<Row>, from: nat, k: nat): seq<Row>
    requires from <= |rows|
  {
    rows[from..Min(from + k, |rows|)]
  }

  lemma SpanNarrow(rows: seq<Row>, from: nat, k: nat)
    requires from <= |rows| && NarrowRows(rows)
    ensures NarrowRows(Span(rows, from, k)) && |Span(rows, from, k)| <= k
  {
  }

  lemma FirstRow(rows: seq<Row>, from: nat, k: nat)
    requires from < |rows| && k > 0
    ensures Span(rows, from, k) == [rows[from]] + Span(rows, from + 1, k - 1)
  {
  }

  /** The row a cursor stands on, or the row count when it stands on none. */
  function RowAt(c: Cursor): (from: nat)
    requires Valid(c)
    ensures from <= |c.rows|
  {
    if OnRow(c) then OnRowInRange(c); c.stmtPos else |c.rows|
  }

  /** The position after up to `k` rows from row `from` on were read with the cursor at `rowPos`. */
  function EndPos(rowPos: int, from: nat, k: nat, n: nat): int {
    if from == n then rowPos else if from + k < n then rowPos + k else n
  }

  /** One row further, in all its outcomes. */
  lemma NextRowAt(c: Cursor)
    requires Valid(c) && OnRow(c)
    ensures 0 <= c.stmtPos < |c.rows|
    ensures var (next, code) := GoToNextRow(c);
            && Valid(next) && next.rows == c.rows && next.faults == c.faults && next.rowPos >= -1
            && (code == E_OK ==> OnRow(next) && next.stmtPos == c.stmtPos + 1 < |c.rows| && next.rowPos == c.rowPos + 1)
            && (code == E_ROW_OUT_RANGE ==> next.rowPos == |c.rows| == c.stmtPos + 1)
            && (c.faults(c.steps) == None ==> code == E_OK || code == E_ROW_OUT_RANGE)
  {
  }

  /** What a fetch from row `from` gives, with the cursor at `rowPos`. */
  ghost predicate Fetched(
    rows: seq<Row>, from: nat, rowPos: int, k: nat, got: seq<Row>, t: Cursor, code: int, page: seq<Row>)
    requires from <= |rows|
  {
    code == E_OK ==> page == got + Span(rows, from, k) && t.rowPos == EndPos(rowPos, from, k, |rows|)
  }

  lemma FetchedStep(
    rows: seq<Row>, from: nat, rowPos: int, k: nat, got: seq<Row>, t: Cursor, code: int, page: seq<Row>)
    requires from + 1 < |rows| && k > 0
    requires Fetched(rows, from + 1, rowPos + 1, k - 1, got + [rows[from]], t, code, page)
    ensures Fetched(rows, from, rowPos, k, got, t, code, page)
  {
    FirstRow(rows, from, k);
    assert got + [rows[from]] + Span(rows, from + 1, k - 1) == got + ([rows[from]] + Span(rows, from + 1, k - 1));
  }

  /** From any cursor on or past a row, fetched rows are those from its row on, once more after the last one. */
  lemma {:induction false} FetchPage(c: Cursor, k: nat, got: seq<Row>)
    requires Valid(c) && c.rowPos >= 0
    ensures var (t, code, page) := FetchRowEntities(c, k, got);
            Fetched(c.rows, RowAt(c), c.rowPos, k, got, t, code, page) && (NoFaults(c) ==> code == E_OK)
    decreases k
  {
    if k > 0 && OnRow(c) {
      NextRowAt(c);
      var (next, code) := GoToNextRow(c);
      var more := got + [c.rows[c.stmtPos]];
      if code == E_OK {
        FetchPage(next, k - 1, more);
        var (t, end, page) := FetchRowEntities(next, k - 1, more);
        FetchedStep(c.rows, c.stmtPos, c.rowPos, k, got, t, end, page);
      } else {
        assert code == E_ROW_OUT_RANGE ==> Span(c.rows, c.stmtPos, k) == [c.rows[c.stmtPos]];
      }
    } else {
      assert got + [] == got && Span(c.rows, RowAt(c), k) == [];
    }
  }

  // ---- where a request leads ----

  datatype Target = Refused | At(from: nat)

  /**
   The row from which a request is answered. A position past the last row is refused unless the cursor has run out: then
   it leads round to the first row again.
   */
  function Where(c: Cursor, position: int): (target: Target)
    requires Valid(c)
    ensures target.At? ==> target.from <= |c.rows|
  {
    var n := |c.rows|;
    if position == INIT_POSITION then At(if c.rowPos == INIT_POSITION then 0 else RowAt(c))
    else if position < 0 then Refused
    else if position < n then At(position)
    else if n <= c.rowPos <= position <= 2 * n then At(if position == n then n else position - n - 1)
    else Refused
  }

  /** The position from which a request is answered. */
  function Entry(c: Cursor, position: int): int {
    if position != INIT_POSITION then position else if c.rowPos == INIT_POSITION then 0 else c.rowPos
  }

  lemma {:induction false} StepToReaches(c: Cursor, position: int)
    requires Valid(c) && c.rowPos <= position < |c.rows|
    ensures StepTo(c, position).1 == E_OK ==> StepTo(c, position).0.rowPos == position
    ensures StepTo(c, position).1 != E_ROW_OUT_RANGE
    ensures NoFaults(c) ==> StepTo(c, position).1 == E_OK
    decreases position - c.rowPos
  {
    if position != c.rowPos {
      NextRowValid(c);
      if GoToNextRow(c).1 == E_OK { StepToReaches(GoToNextRow(c).0, position); }
    }
  }

  lemma {:induction false} StepPastEnd(c: Cursor, p: int)
    requires Valid(c) && c.rowPos <= p && |c.rows| <= p
    ensures StepTo(c, p).1 == E_OK ==> |c.rows| <= c.rowPos && p <= 2 * |c.rows| && StepTo(c, p).0.rowPos == p
    ensures NoFaults(c) ==>
      StepTo(c, p).1 == if c.rowPos < |c.rows| || 2 * |c.rows| < p then E_ROW_OUT_RANGE else E_OK
    decreases p - c.rowPos
  {
    if p != c.rowPos {
      NextRowValid(c);
      if GoToNextRow(c).1 == E_OK { StepPastEnd(GoToNextRow(c).0, p); }
    }
  }

  /** Getting ready succeeds only where the request leads somewhere, and then the cursor is there. */
  lemma PrepareIs(c: Cursor, position: int)
    requires Valid(c)
    ensures var (ready, code) := PreparePosition(c, position);
            && Valid(ready) && ready.rows == c.rows && ready.faults == c.faults
            && (code == E_OK ==> && Where(c, position).At? && ready.rowPos == Entry(c, position)
                                 && RowAt(ready) == Where(c, position).from)
            && (NoFaults(c) ==> code == if Where(c, position).At? then E_OK else E_ROW_OUT_RANGE)
  {
    PrepareValid(c, position);
    if position == INIT_POSITION {
      if c.rowPos == INIT_POSITION {
        if c.rows != [] { StepToReaches(c, 0); } else { EmptyFirst(c); }
      }
    } else if position >= 0 && position != c.rowPos {
      var start := if position < c.rowPos then Reset(c) else c;
      if position < |c.rows| { StepToReaches(start, position); } else { StepPastEnd(start, position); }
    }
  }

  lemma EmptyFirst(c: Cursor)
    requires Valid(c) && c.rowPos == INIT_POSITION && c.rows == []
    ensures var (t, code) := StepTo(c, 0);
            && code != E_OK && (NoFaults(c) ==> code == E_ROW_OUT_RANGE)
            && (code == E_ROW_OUT_RANGE ==> t.rowPos == 0)
  {
  }

  /** A negative count asks for no rows. */
  function Count(maxCount: int): nat { if maxCount < 0 then 0 else maxCount }

  /** The outcome of a request that leads to row `from`. */
  ghost predicate Outcome(c: Cursor, k: nat, position: int, from: nat, t: Cursor, page: seq<Row>, code: int)
    requires from <= |c.rows|
  {
    && (if code == E_OK then page == Span(c.rows, from, k) && t.rowPos == EndPos(Entry(c, position), from, k, |c.rows|)
        else page == [])
    && (NoFaults(c) ==> code == if Deliverable(Span(c.rows, from, k)) then E_OK
                                else if |Span(c.rows, from, k)| > 32766 then E_INVALID_ARGS_NEW else E_ERROR)
  }

  /**
   Every request, from any cursor state: a page that is handed out holds exactly the rows from the target row on, and
   without a failing step it is handed out exactly when it has at most 32766 rows of at most 2000 columns. A refused
   request gets no rows.
   */
  lemma GetRowsIs(c: Cursor, maxCount: int, position: int)
    requires Valid(c)
    ensures var (t, page, code) := GetRows(c, maxCount, position);
            && Valid(t) && t.rows == c.rows && t.faults == c.faults
            && match Where(c, position)
               case At(from) => Outcome(c, Count(maxCount), position, from, t, page, code)
               case Refused => page == [] && code != E_OK && (NoFaults(c) ==> code == E_ROW_OUT_RANGE)
  {
    var k := Count(maxCount);
    GetRowsValid(c, maxCount, position);
    PrepareIs(c, position);
    var (ready, code) := PreparePosition(c, position);
    if code == E_OK {
      assert FetchRowEntities(ready, maxCount, []) == FetchRowEntities(ready, k, []);
      FetchPage(ready, k, []);
      FetchValid(ready, k, []);
      ConvertIff(Span(c.rows, RowAt(ready), k));
    }
  }

  /**
   A position past the last row gives rows exactly when the cursor has run out and stands no further, at least one row
   was asked for, and the page can be handed out; and then they are the rows from one round further on.
   */
  lemma PastEndRowsIff(c: Cursor, maxCount: int, p: nat)
    requires Valid(c) && NoFaults(c) && |c.rows| <= p
    ensures var n := |c.rows|;
            var page := GetRows(c, maxCount, p).1;
            && (page != [] <==> && n <= c.rowPos <= p && n < p <= 2 * n && maxCount > 0
                                && Deliverable(Span(c.rows, p - n - 1, maxCount)))
            && (page != [] ==> page == Span(c.rows, p - n - 1, maxCount))
  {
    GetRowsIs(c, maxCount, p);
  }

  // ---- failing steps ----

  /** The steps from one cursor to a later one all went well. */
  ghost predicate WentWell(c: Cursor, until: nat) { forall i | c.steps <= i < until :: c.faults(i) == None }

  /** What a step that goes wrong is reported as. */
  function Report(f: Fault): int
    requires f != None
  {
    if f.Busy? then E_STEP_RESULT_QUERY_EXCEEDED else f.code
  }

  /**
   Either every step went well, or the last one did not: then its code is reported. After a failure the cursor stands
   before the first row, or past the last one if the row count is known; a busy step leaves it where it was.
   */
  ghost predicate Reported(c: Cursor, t: Cursor, code: int) {
    && c.steps <= t.steps
    && (WentWell(c, t.steps) ||
        (&& c.steps < t.steps && WentWell(c, t.steps - 1)
         && c.faults(t.steps - 1) != None && code == Report(c.faults(t.steps - 1))
         && (c.faults(t.steps - 1).Failed? ==> t.rowPos == t.rowCount)))
  }

  lemma StepReported(c: Cursor)
    ensures Reported(c, GoToNextRow(c).0, GoToNextRow(c).1)
    ensures GoToNextRow(c).0.steps == c.steps + 1
    ensures c.faults(c.steps) == None <==> GoToNextRow(c).1 == E_OK || GoToNextRow(c).1 == E_ROW_OUT_RANGE
    ensures c.faults(c.steps) == Busy ==> GoToNextRow(c).0 == c.(steps := c.steps + 1)
  {
  }

  lemma ReportedLater(c: Cursor, mid: Cursor, t: Cursor, code: int)
    requires WentWell(c, mid.steps) && c.steps <= mid.steps && mid.faults == c.faults && Reported(mid, t, code)
    ensures Reported(c, t, code)
  {
  }

  lemma {:induction false} StepToReported(c: Cursor, position: int)
    requires c.rowPos <= position
    ensures Reported(c, StepTo(c, position).0, StepTo(c, position).1) && StepTo(c, position).0.faults == c.faults
    ensures WentWell(c, StepTo(c, position).0.steps) <==>
            StepTo(c, position).1 == E_OK || StepTo(c, position).1 == E_ROW_OUT_RANGE
    decreases position - c.rowPos
  {
    if position != c.rowPos {
      StepReported(c);
      var (next, code) := GoToNextRow(c);
      if code == E_OK {
        StepToReported(next, position);
        ReportedLater(c, next, StepTo(next, position).0, StepTo(next, position).1);
      }
    }
  }

  lemma {:induction false} FetchReported(c: Cursor, maxCount: int, got: seq<Row>)
    requires Valid(c)
    ensures var (t, code, _) := FetchRowEntities(c, maxCount, got);
            Reported(c, t, code) && (WentWell(c, t.steps) <==> code == E_OK)
    decreases maxCount
  {
    if maxCount > 0 && OnRow(c) {
      StepReported(c);
      NextRowValid(c);
      var (next, code) := GoToNextRow(c);
      if code == E_OK {
        var more := got + [c.rows[c.stmtPos]];
        FetchReported(next, maxCount - 1, more);
        var (t, last, _) := FetchRowEntities(next, maxCount - 1, more);
        ReportedLater(c, next, t, last);
      }
    }
  }

  /** A step that goes wrong ends the request at once and is reported with its own code. */
  lemma FailureReported(c: Cursor, maxCount: int, position: int)
    requires Valid(c)
    ensures var (t, page, code) := GetRows(c, maxCount, position);
            Reported(c, t, code) && (!WentWell(c, t.steps) ==> page == [])
  {
    PrepareValid(c, position);
    var start := if position < c.rowPos then Reset(c) else c;
    if position >= 0 { StepToReported(start, position); }
    if c.rowPos <= 0 { StepToReported(c, 0); }
    var (ready, code) := PreparePosition(c, position);
    if code == E_OK {
      FetchReported(ready, maxCount, []);
      var (t, end, _) := FetchRowEntities(ready, maxCount, []);
      ReportedLater(c, ready, t, end);
    }
  }

  // ---- paging from the start ----

  datatype Got = Got(next: Cursor, page: seq<Row>, code: int)

  /** The next page of `k` rows, as a function of the cursor. */
  function NextPage(k: nat): Cursor -> Got {
    (c: Cursor) =>
      if !Valid(c) then Got(c, [], E_ERROR)
      else
        var (next, page, code) := GetRows(c, k, INIT_POSITION);
        Got(next, page, code)
  }

  /** `calls` successive pages put together, and whether all of them succeeded. */
  function Pages(get: Cursor -> Got, c: Cursor, calls: nat): (bool, seq<Row>)
    decreases calls
  {
    if calls == 0 then (true, [])
    else
      var got := get(c);
      var (ok, rest) := Pages(get, got.next, calls - 1);
      (got.code == E_OK && ok, got.page + rest)
  }

  lemma JoinPages(rows: seq<Row>, from: nat, k: nat, more: nat)
    requires from <= |rows|
    ensures var end := Min(from + k, |rows|);
            Span(rows, from, k) + Span(rows, end, more) == Span(rows, from, k + more)
  {
  }

  function Times(k: nat, calls: nat): nat { if calls == 0 then 0 else k + Times(k, calls - 1) }

  lemma {:induction false} TimesIsProduct(k: nat, calls: nat)
    ensures Times(k, calls) == k * calls
  {
    if calls > 0 { TimesIsProduct(k, calls - 1); }
  }

  /** The cursor has not gone round. */
  ghost predicate Ready(c: Cursor) { Valid(c) && c.rowPos <= |c.rows| }

  ghost predicate GivesPage(c: Cursor, k: nat, got: Got) {
    var from := Entry(c, INIT_POSITION);
    && (got.code == E_OK ==> && 0 <= from <= |c.rows| && got.page == Span(c.rows, from, k)
                             && got.next.rowPos == Min(from + k, |c.rows|)
                             && Valid(got.next) && got.next.rows == c.rows && got.next.faults == c.faults)
    && (NoFaults(c) && NarrowRows(c.rows) && k <= MAX_ROWS_COUNT ==> got.code == E_OK)
  }

  lemma NextPageGives(c: Cursor, k: nat)
    requires Ready(c)
    ensures GivesPage(c, k, NextPage(k)(c))
  {
    GetRowsIs(c, k, INIT_POSITION);
    var from := Entry(c, INIT_POSITION);
    assert Where(c, INIT_POSITION) == At(from);
    if NarrowRows(c.rows) { SpanNarrow(c.rows, from, k); }
  }

  lemma PagesStep(get: Cursor -> Got, c: Cursor, k: nat, calls: nat, from: nat, end: nat, rest: seq<Row>)
    requires calls > 0 && from <= |c.rows| && end == Min(from + k, |c.rows|)
    requires get(c).page == Span(c.rows, from, k) && rest == Pages(get, get(c).next, calls - 1).1
    requires rest == Span(c.rows, end, Times(k, calls - 1))
    ensures Pages(get, c, calls).1 == Span(c.rows, from, Times(k, calls))
  {
    JoinPages(c.rows, from, k, Times(k, calls - 1));
    assert Pages(get, c, calls).1 == get(c).page + rest;
  }

  /** Whatever hands out pages one after the other covers the rows. */
  lemma {:induction false} PagesFrom(get: Cursor -> Got, c: Cursor, k: nat, calls: nat, from: nat)
    requires Ready(c) && from == Entry(c, INIT_POSITION) <= |c.rows|
    requires forall d :: Ready(d) ==> GivesPage(d, k, get(d))
    requires Pages(get, c, calls).0
    ensures Pages(get, c, calls).1 == Span(c.rows, from, Times(k, calls))
    decreases calls
  {
    if calls > 0 {
      var got := get(c);
      assert GivesPage(c, k, got);
      var end := got.next.rowPos;
      PagesFrom(get, got.next, k, calls - 1, end);
      PagesStep(get, c, k, calls, from, end, Pages(get, got.next, calls - 1).1);
    }
  }

  lemma {:induction false} PagesSucceed(get: Cursor -> Got, c: Cursor, k: nat, calls: nat)
    requires Ready(c) && NoFaults(c) && NarrowRows(c.rows) && k <= MAX_ROWS_COUNT
    requires forall d :: Ready(d) ==> GivesPage(d, k, get(d))
    ensures Pages(get, c, calls).0
    decreases calls
  {
    if calls > 0 {
      assert GivesPage(c, k, get(c));
      PagesSucceed(get, get(c).next, k, calls - 1);
    }
  }

  /**
   Repeated paging from a fresh cursor gives the row sequence without gaps or repeats, and once it is exhausted
   only empty pages.
   */
  lemma PagingCoversRows(rows: seq<Row>, faults: nat -> Fault, k: nat, calls: nat)
    ensures var (ok, all) := Pages(NextPage(k), Fresh(rows, faults), calls);
            && (ok ==> all == Span(rows, 0, k * calls))
            && (NoFaults(Fresh(rows, faults)) && NarrowRows(rows) && k <= MAX_ROWS_COUNT ==> ok)
  {
    forall d | Ready(d) ensures GivesPage(d, k, NextPage(k)(d)) {
      NextPageGives(d, k);
    }
    TimesIsProduct(k, calls);
    if Pages(NextPage(k), Fresh(rows, faults), calls).0 { PagesFrom(NextPage(k), Fresh(rows, faults), k, calls, 0); }
    if NoFaults(Fresh(rows, faults)) && NarrowRows(rows) && k <= MAX_ROWS_COUNT {
      PagesSucceed(NextPage(k), Fresh(rows, faults), k, calls);
    }
  }
}
