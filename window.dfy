/**
 * The simulation window: start and end dates truncated to whole UTC days,
 * the inclusive day count, and the wafer-starts figure, read from the
 * `variable`/`value` rows of the `Simulation_Summary` worksheet.
 */
module Window {
  import opened JsValues
  import opened Workbook
  import opened Cells

  const SummarySheet: string := "Simulation_Summary"

  /** The exceptions `parseSimulationWindow` throws. */
  datatype WindowError =
    | SheetNotFound   // "Simulation_Summary not found"
    | SchemaError     // "must have 'variable' and 'value' headers"
    | MissingWindow   // "Missing start_time or end_time"
    | InvalidWindow   // "Invalid start/end dates"

  /** A resolved window: UTC-midnight time values, the inclusive day count, the wafer starts. */
  datatype SimWindow = SimWindow(startMs: TimeMs, endMs: TimeMs, nDays: nat, waferStarts: real)

  /** What the row scan has collected so far: `startTime`, `endTime`, `wafers_started`. */
  datatype ScanState = ScanState(startTime: Option<JsDate>, endTime: Option<JsDate>, wafers: Option<real>)

  /** `String(v || "").trim().toLowerCase()` */
  function Key(host: Host, v: Value): string {
    Lower(Trim(ToStr(host, OrEmpty(v))))
  }

  /** `vals.findIndex(v => key(v) === name)`, searching from position `from`. */
  function FindIndexOf(host: Host, vals: seq<Value>, name: string, from: nat): (r: int)
    requires from <= |vals|
    ensures r == -1 || from <= r < |vals|
    ensures r >= 0 ==> Key(host, vals[r]) == name && forall i :: from <= i < r ==> Key(host, vals[i]) != name
    ensures r == -1 ==> forall i :: from <= i < |vals| ==> Key(host, vals[i]) != name
    decreases |vals| - from
  {
    if from == |vals| then -1
    else if Key(host, vals[from]) == name then from
    else FindIndexOf(host, vals, name, from + 1)
  }

  /** The lower-cased, trimmed `variable` cell of a row that `eachRow` visits, or None for a skipped row. */
  function RowKey(host: Host, r: Option<Row>, varCol: int): Option<string> {
    match r
    case None => None
    case Some(row) =>
      if !HasValues(row) || row.number == 1 then None
      else Some(Key(host, CellToValue(CellAt(row, varCol))))
  }

  /** The `value` cell of a row, unwrapped. */
  function RowValue(r: Option<Row>, valCol: int): Value {
    match r
    case None => Null
    case Some(row) => CellToValue(CellAt(row, valCol))
  }

  /** The scan's callback for one row: the row's variable decides which field it sets. */
  function ScanRow(host: Host, st: ScanState, r: Option<Row>, varCol: int, valCol: int): ScanState {
    var key := RowKey(host, r, varCol);
    var value := RowValue(r, valCol);
    if key == Some("start_time") then st.(startTime := NormalizeTs(host, value))
    else if key == Some("end_time") then st.(endTime := NormalizeTs(host, value))
    else if key == Some("wafers_starts") then st.(wafers := Some(ToNumberOrNull(host, value).GetOr(0.0)))
    else st
  }

  /** `ws.eachRow(...)`: the callback applied to the rows in order. */
  function ScanRows(host: Host, rows: seq<Option<Row>>, varCol: int, valCol: int): ScanState
    decreases |rows|
  {
    if rows == [] then ScanState(None, None, None)
    else ScanRow(host, ScanRows(host, rows[..|rows| - 1], varCol, valCol), rows[|rows| - 1], varCol, valCol)
  }

  /** Rows the callback skips, or whose variable is none of the three, leave every variable unset. */
  lemma {:induction false} UnscannedRowsSetNothing(host: Host, rows: seq<Option<Row>>, varCol: int, valCol: int)
    requires forall i :: 0 <= i < |rows| ==> RowKey(host, rows[i], varCol) !in {Some("start_time"), Some("end_time"), Some("wafers_starts")}
    ensures ScanRows(host, rows, varCol, valCol) == ScanState(None, None, None)
    decreases |rows|
  {
    if rows != [] {
      UnscannedRowsSetNothing(host, rows[..|rows| - 1], varCol, valCol);
    }
  }

  /** The position of the last scanned row whose variable is `key`, or -1. */
  function LastWith(host: Host, rows: seq<Option<Row>>, varCol: int, key: string): (r: int)
    ensures -1 <= r < |rows|
    ensures r >= 0 ==> RowKey(host, rows[r], varCol) == Some(key)
    ensures forall i :: r < i < |rows| ==> RowKey(host, rows[i], varCol) != Some(key)
    decreases |rows|
  {
    if rows == [] then -1
    else if RowKey(host, rows[|rows| - 1], varCol) == Some(key) then |rows| - 1
    else LastWith(host, rows[..|rows| - 1], varCol, key)
  }

  /**
   * The last row naming a variable decides it: `start_time` and `end_time` are the
   * normalised value of their last row, `wafers_starts` the number in its last row
   * (0 when that is not numeric); a variable with no row stays unset.
   */
  lemma {:induction false} ScanIsLastOccurrence(host: Host, rows: seq<Option<Row>>, varCol: int, valCol: int)
    ensures var st := ScanRows(host, rows, varCol, valCol);
      var s, e, w := LastWith(host, rows, varCol, "start_time"), LastWith(host, rows, varCol, "end_time"),
        LastWith(host, rows, varCol, "wafers_starts");
      && st.startTime == (if s < 0 then None else NormalizeTs(host, RowValue(rows[s], valCol)))
      && st.endTime == (if e < 0 then None else NormalizeTs(host, RowValue(rows[e], valCol)))
      && st.wafers == (if w < 0 then None else Some(ToNumberOrNull(host, RowValue(rows[w], valCol)).GetOr(0.0)))
    decreases |rows|
  {
    if rows != [] {
      var init := rows[..|rows| - 1];
      ScanIsLastOccurrence(host, init, varCol, valCol);
      assert forall i :: 0 <= i < |init| ==> init[i] == rows[i];
    }
  }

  /** The dates and wafer count the scan resolved, before truncation. */
  datatype Times = Times(start: JsDate, end: JsDate, waferStarts: real)

  /** Everything before the start/end check: sheet, headers, scan, presence of both dates. */
  function ResolveTimes(host: Host, wb: Book): (r: Result<Times, WindowError>)
    ensures r == Err(SheetNotFound) <==> SummarySheet !in wb
    ensures r.Err? ==> r.error != InvalidWindow
    ensures r.Ok? ==> SummarySheet in wb && 1 <= FindIndexOf(host, HeaderValues(wb[SummarySheet]), "variable", 0)
  {
    if SummarySheet !in wb then Err(SheetNotFound)
    else
      var ws := wb[SummarySheet];
      var hdr := HeaderValues(ws);
      var varCol := FindIndexOf(host, hdr, "variable", 0);
      var valCol := FindIndexOf(host, hdr, "value", 0);
      if varCol < 1 || valCol < 1 then Err(SchemaError)
      else
        var st := ScanRows(host, ws.rows, varCol, valCol);
        if st.startTime.None? || st.endTime.None? then Err(MissingWindow)
        else Ok(Times(st.startTime.value, st.endTime.value, st.wafers.GetOr(0.0)))
  }

  /** `Math.round((e - s) / 86400000) + 1` for UTC midnights `s <= e`: exact, and at least 1. */
  function DayCount(s: int, e: int): (n: nat)
    requires s % DayMs == 0 && e % DayMs == 0 && s <= e
    ensures n == (e - s) / DayMs + 1 && n >= 1
    ensures s + (n - 1) * DayMs == e
  {
    var m := (e - s) / DayMs;
    assert e - s == m * DayMs;
    assert (e - s) as real / DayMs as real == m as real;
    RoundOfInteger(m);
    RoundHalfUp((e - s) as real / DayMs as real) + 1
  }

  /**
   * `parseSimulationWindow`, with the start/end check rejecting Invalid Dates
   * (see the as-written variant below). On success both ends are UTC
   * midnights, start <= end, and the day count is the inclusive span.
   */
  function ParseWindow(host: Host, wb: Book): (r: Result<SimWindow, WindowError>)
    ensures r.Ok? ==> var w := r.value;
      && w.startMs % DayMs == 0 && w.endMs % DayMs == 0 && w.startMs <= w.endMs
      && w.nDays == (w.endMs - w.startMs) / DayMs + 1 && w.nDays >= 1
      && w.startMs + (w.nDays - 1) * DayMs == w.endMs
  {
    match ResolveTimes(host, wb)
    case Err(e) => Err(e)
    case Ok(t) =>
      var s := NormalizeToDayUtc(t.start);
      var e := NormalizeToDayUtc(t.end);
      if s.InvalidDate? || e.InvalidDate? || s.ms > e.ms then Err(InvalidWindow)
      else Ok(SimWindow(s.ms, e.ms, DayCount(s.ms, e.ms), t.waferStarts))
  }

  /** Each error is raised exactly in its own case, checked in the source's order. */
  lemma ParseWindowErrors(host: Host, wb: Book)
    ensures ParseWindow(host, wb) == Err(SheetNotFound) <==> SummarySheet !in wb
    ensures ParseWindow(host, wb) == Err(SchemaError) <==>
      SummarySheet in wb &&
      (FindIndexOf(host, HeaderValues(wb[SummarySheet]), "variable", 0) < 1 ||
       FindIndexOf(host, HeaderValues(wb[SummarySheet]), "value", 0) < 1)
    ensures ParseWindow(host, wb) == Err(MissingWindow) <==>
      SummarySheet in wb &&
      var hdr := HeaderValues(wb[SummarySheet]);
      var varCol, valCol := FindIndexOf(host, hdr, "variable", 0), FindIndexOf(host, hdr, "value", 0);
      varCol >= 1 && valCol >= 1 &&
      (LastWith(host, wb[SummarySheet].rows, varCol, "start_time") < 0 ||
       LastWith(host, wb[SummarySheet].rows, varCol, "end_time") < 0 ||
       ScanRows(host, wb[SummarySheet].rows, varCol, valCol).startTime.None? ||
       ScanRows(host, wb[SummarySheet].rows, varCol, valCol).endTime.None?)
    ensures ParseWindow(host, wb) == Err(InvalidWindow) <==>
      ResolveTimes(host, wb).Ok? &&
      var t := ResolveTimes(host, wb).value;
      (t.start.InvalidDate? || t.end.InvalidDate? ||
       NormalizeToDayUtc(t.start).ms > NormalizeToDayUtc(t.end).ms)
  {
    if SummarySheet in wb {
      var hdr := HeaderValues(wb[SummarySheet]);
      var varCol, valCol := FindIndexOf(host, hdr, "variable", 0), FindIndexOf(host, hdr, "value", 0);
      ScanIsLastOccurrence(host, wb[SummarySheet].rows, varCol, valCol);
    }
  }

  /**
   * The wafer-starts figure is the number in the last `wafers_starts` row, and 0
   * when there is no such row or its value is not numeric.
   */
  lemma WaferStartsDefault(host: Host, wb: Book)
    requires ParseWindow(host, wb).Ok?
    ensures var ws := wb[SummarySheet];
      var hdr := HeaderValues(ws);
      var varCol, valCol := FindIndexOf(host, hdr, "variable", 0), FindIndexOf(host, hdr, "value", 0);
      var w := LastWith(host, ws.rows, varCol, "wafers_starts");
      ParseWindow(host, wb).value.waferStarts ==
        if w < 0 then 0.0 else ToNumberOrNull(host, RowValue(ws.rows[w], valCol)).GetOr(0.0)
  {
    var ws := wb[SummarySheet];
    var hdr := HeaderValues(ws);
    ScanIsLastOccurrence(host, ws.rows, FindIndexOf(host, hdr, "variable", 0), FindIndexOf(host, hdr, "value", 0));
  }

  /**
   * The window's ends are the UTC days of the last `start_time` and the last
   * `end_time` row's normalised values.
   */
  lemma WindowEndsFromLastRows(host: Host, wb: Book)
    requires ParseWindow(host, wb).Ok?
    ensures var ws := wb[SummarySheet];
      var hdr := HeaderValues(ws);
      var varCol, valCol := FindIndexOf(host, hdr, "variable", 0), FindIndexOf(host, hdr, "value", 0);
      var s, e := LastWith(host, ws.rows, varCol, "start_time"), LastWith(host, ws.rows, varCol, "end_time");
      var w := ParseWindow(host, wb).value;
      && s >= 0 && e >= 0
      && NormalizeTs(host, RowValue(ws.rows[s], valCol)).Some?
      && NormalizeTs(host, RowValue(ws.rows[e], valCol)).Some?
      && ValidDate(w.startMs) == NormalizeToDayUtc(NormalizeTs(host, RowValue(ws.rows[s], valCol)).value)
      && ValidDate(w.endMs) == NormalizeToDayUtc(NormalizeTs(host, RowValue(ws.rows[e], valCol)).value)
  {
    var ws := wb[SummarySheet];
    var hdr := HeaderValues(ws);
    ScanIsLastOccurrence(host, ws.rows, FindIndexOf(host, hdr, "variable", 0), FindIndexOf(host, hdr, "value", 0));
  }

  /** The `eachRow` scan of `parseSimulationWindow`, as a loop over the rows. */
  method ScanSummaryRows(host: Host, ws: Sheet, varColIdx: int, valColIdx: int) returns (st: ScanState)
    ensures st == ScanRows(host, ws.rows, varColIdx, valColIdx)
  {
    var startTime: Option<JsDate> := None;
    var endTime: Option<JsDate> := None;
    var wafersStarted: Option<real> := None;
    var i := 0;
    while i < |ws.rows|
      invariant 0 <= i <= |ws.rows|
      invariant ScanState(startTime, endTime, wafersStarted) == ScanRows(host, ws.rows[..i], varColIdx, valColIdx)
    {
      var row := ws.rows[i];
      assert ws.rows[..i + 1][..i] == ws.rows[..i] && ws.rows[..i + 1][i] == row;
      if row.Some? && HasValues(row.value) && row.value.number != 1 {
        var varName := Key(host, CellToValue(CellAt(row.value, varColIdx)));
        var value := CellToValue(CellAt(row.value, valColIdx));
        if varName == "start_time" {
          startTime := NormalizeTs(host, value);
        } else if varName == "end_time" {
          endTime := NormalizeTs(host, value);
        } else if varName == "wafers_starts" {
          var asNum := ToNumberOrNull(host, value);
          wafersStarted := Some(if asNum.Some? then asNum.value else 0.0);
        }
      }
      i := i + 1;
    }
    assert ws.rows[..i] == ws.rows;
    st := ScanState(startTime, endTime, wafersStarted);
  }

  /** `parseSimulationWindow` */
  method ParseSimulationWindow(host: Host, wb: Book) returns (r: Result<SimWindow, WindowError>)
    ensures r == ParseWindow(host, wb)
    ensures r.Ok? ==> r.value.nDays >= 1 && r.value.startMs + (r.value.nDays - 1) * DayMs == r.value.endMs
  {
    if SummarySheet !in wb {
      return Err(SheetNotFound);
    }
    var ws := wb[SummarySheet];
    var hdrVals := HeaderValues(ws);
    var varColIdx := FindIndexOf(host, hdrVals, "variable", 0);
    var valColIdx := FindIndexOf(host, hdrVals, "value", 0);
    if varColIdx < 1 || valColIdx < 1 {
      return Err(SchemaError);
    }
    var st := ScanSummaryRows(host, ws, varColIdx, valColIdx);
    if st.startTime.None? || st.endTime.None? {
      return Err(MissingWindow);
    }
    var s := NormalizeToDayUtc(st.startTime.value);
    var e := NormalizeToDayUtc(st.endTime.value);
    if s.InvalidDate? || e.InvalidDate? || s.ms > e.ms {
      return Err(InvalidWindow);
    }
    var days := RoundHalfUp((e.ms - s.ms) as real / DayMs as real) + 1;
    assert days == DayCount(s.ms, e.ms);
    r := Ok(SimWindow(s.ms, e.ms, days, st.wafers.GetOr(0.0)));
  }

  /* ---------- the start/end check as written ---------- */

  /** A window as the source can return it: `nDays` is None where it is NaN. */
  datatype RawWindow = RawWindow(start: JsDate, end: JsDate, nDays: Option<int>, waferStarts: real)

  /**
   * `parseSimulationWindow` exactly as written: `!s || !e` never holds of a Date
   * object, and `s > e` is false when either time value is NaN, so an Invalid
   * Date passes the check and the day count becomes NaN.
   */
  function ParseWindowAsWritten(host: Host, wb: Book): (r: Result<RawWindow, WindowError>)
    ensures r.Ok? && r.value.start.ValidDate? && r.value.end.ValidDate? ==>
      r.value.nDays.Some? && r.value.start.ms <= r.value.end.ms
  {
    match ResolveTimes(host, wb)
    case Err(e) => Err(e)
    case Ok(t) =>
      var s := NormalizeToDayUtc(t.start);
      var e := NormalizeToDayUtc(t.end);
      if s.ValidDate? && e.ValidDate? && s.ms > e.ms then Err(InvalidWindow)
      else Ok(RawWindow(s, e, if s.ValidDate? && e.ValidDate? then Some(DayCount(s.ms, e.ms)) else None, t.waferStarts))
  }

  /** Both variants agree on every workbook whose dates are valid. */
  lemma AsWrittenAgreesOnValidDates(host: Host, wb: Book)
    requires ResolveTimes(host, wb).Ok?
    requires ResolveTimes(host, wb).value.start.ValidDate? && ResolveTimes(host, wb).value.end.ValidDate?
    ensures ParseWindowAsWritten(host, wb).Ok? <==> ParseWindow(host, wb).Ok?
    ensures ParseWindow(host, wb).Ok? ==>
      var w := ParseWindow(host, wb).value;
      ParseWindowAsWritten(host, wb).value == RawWindow(ValidDate(w.startMs), ValidDate(w.endMs), Some(w.nDays), w.waferStarts)
  {
  }

  /* ---------- worked examples ---------- */

  function SummaryRow(n: int, variable: string, value: Value): Option<Row> {
    Some(Row(n, [Str(variable), value]))
  }

  function SummaryBook(startValue: Value, endValue: Value, wafers: Value): Book {
    map[SummarySheet := Sheet([
      Some(Row(1, [Str("variable"), Str("value")])),
      SummaryRow(2, "start_time", startValue),
      SummaryRow(3, "end_time", endValue),
      SummaryRow(4, "wafers_starts", wafers)])]
  }

  /** Lower-case ASCII letters and underscores. */
  predicate PlainName(s: string) {
    forall i :: 0 <= i < |s| ==> 'a' <= s[i] <= 'z' || s[i] == '_'
  }

  /** A plain name is its own key. */
  lemma KeyOfPlainName(host: Host, s: string)
    requires s != [] && PlainName(s)
    ensures Key(host, Str(s)) == s
  {
    TrimOfTrimmed(s);
    assert Lower(s) == s;
  }

  lemma SummaryNamesArePlain()
    ensures PlainName("variable") && PlainName("value") && PlainName("start_time")
    ensures PlainName("end_time") && PlainName("wafers_starts")
  {
  }

  lemma KeysOfSummaryBook(host: Host)
    ensures Key(host, Null) == ""
    ensures Key(host, Str("variable")) == "variable"
    ensures Key(host, Str("value")) == "value"
    ensures Key(host, Str("start_time")) == "start_time"
    ensures Key(host, Str("end_time")) == "end_time"
    ensures Key(host, Str("wafers_starts")) == "wafers_starts"
  {
    SummaryNamesArePlain();
    KeyOfPlainName(host, "variable");
    KeyOfPlainName(host, "value");
    KeyOfPlainName(host, "start_time");
    KeyOfPlainName(host, "end_time");
    KeyOfPlainName(host, "wafers_starts");
  }

  /** The header row of `SummaryBook` has `variable` in column 1 and `value` in column 2. */
  lemma HeaderColumnsOfSummaryBook(host: Host, startValue: Value, endValue: Value, wafers: Value)
    ensures var hdr := HeaderValues(SummaryBook(startValue, endValue, wafers)[SummarySheet]);
      FindIndexOf(host, hdr, "variable", 0) == 1 && FindIndexOf(host, hdr, "value", 0) == 2
  {
    var hdr := HeaderValues(SummaryBook(startValue, endValue, wafers)[SummarySheet]);
    assert hdr == [Null, Str("variable"), Str("value")];
    HeaderColumnsOfSummaryRow(host);
  }

  /** The search for `variable` and `value` in the header values `[hole, "variable", "value"]`. */
  lemma HeaderColumnsOfSummaryRow(host: Host)
    ensures FindIndexOf(host, [Null, Str("variable"), Str("value")], "variable", 0) == 1
    ensures FindIndexOf(host, [Null, Str("variable"), Str("value")], "value", 0) == 2
  {
    KeysOfSummaryBook(host);
    var hdr := [Null, Str("variable"), Str("value")];
    assert FindIndexOf(host, hdr, "variable", 1) == 1;
    assert FindIndexOf(host, hdr, "value", 2) == 2;
    assert FindIndexOf(host, hdr, "value", 1) == 2;
  }

  /** A variable row of a summary sheet is visited under its own name and yields its value. */
  lemma RowKeyOfSummaryRow(host: Host, n: int, name: string, value: Value)
    requires n != 1 && name != [] && PlainName(name)
    ensures RowKey(host, SummaryRow(n, name, value), 1) == Some(name)
    ensures RowValue(SummaryRow(n, name, value), 2) == CellToValue(value)
  {
    var row := Row(n, [Str(name), value]);
    assert HasValues(row) by { assert row.cells[0] != Null; }
    assert CellAt(row, 1) == Str(name);
    assert CellToValue(Str(name)) == Str(name);
    KeyOfPlainName(host, name);
  }

  /** Row 1 of `SummaryBook` is skipped as the header; rows 2 to 4 name the three variables. */
  lemma RowKeysOfSummaryBook(host: Host, startValue: Value, endValue: Value, wafers: Value)
    ensures var rows := SummaryBook(startValue, endValue, wafers)[SummarySheet].rows;
      && |rows| == 4
      && RowKey(host, rows[0], 1) == None
      && RowKey(host, rows[1], 1) == Some("start_time")
      && RowKey(host, rows[2], 1) == Some("end_time")
      && RowKey(host, rows[3], 1) == Some("wafers_starts")
      && RowValue(rows[1], 2) == CellToValue(startValue)
      && RowValue(rows[2], 2) == CellToValue(endValue)
      && RowValue(rows[3], 2) == CellToValue(wafers)
  {
    SummaryNamesArePlain();
    RowKeyOfSummaryRow(host, 2, "start_time", startValue);
    RowKeyOfSummaryRow(host, 3, "end_time", endValue);
    RowKeyOfSummaryRow(host, 4, "wafers_starts", wafers);
  }

  /** The scan of `SummaryBook` reads exactly its three variable rows. */
  lemma ScanOfSummaryBook(host: Host, startValue: Value, endValue: Value, wafers: Value)
    ensures var ws := SummaryBook(startValue, endValue, wafers)[SummarySheet];
      && FindIndexOf(host, HeaderValues(ws), "variable", 0) == 1
      && FindIndexOf(host, HeaderValues(ws), "value", 0) == 2
      && ScanRows(host, ws.rows, 1, 2) ==
         ScanState(NormalizeTs(host, startValue), NormalizeTs(host, endValue),
                   Some(ToNumberOrNull(host, CellToValue(wafers)).GetOr(0.0)))
  {
    HeaderColumnsOfSummaryBook(host, startValue, endValue, wafers);
    RowKeysOfSummaryBook(host, startValue, endValue, wafers);
    var rows := SummaryBook(startValue, endValue, wafers)[SummarySheet].rows;
    LastWithOfFourRows(host, rows);
    ScanIsLastOccurrence(host, rows, 1, 2);
    CellToValueAgreesWithNormalizeTs(host, startValue);
    CellToValueAgreesWithNormalizeTs(host, endValue);
  }

  lemma LastWithOfFourRows(host: Host, rows: seq<Option<Row>>)
    requires |rows| == 4
    requires RowKey(host, rows[0], 1) == None
    requires RowKey(host, rows[1], 1) == Some("start_time")
    requires RowKey(host, rows[2], 1) == Some("end_time")
    requires RowKey(host, rows[3], 1) == Some("wafers_starts")
    ensures LastWith(host, rows, 1, "start_time") == 1
    ensures LastWith(host, rows, 1, "end_time") == 2
    ensures LastWith(host, rows, 1, "wafers_starts") == 3
  {
    assert rows[..3][..2] == rows[..2];
    assert rows[..3][2] == rows[2];
    assert rows[..2][1] == rows[1];
    assert LastWith(host, rows[..2], 1, "start_time") == 1;
    assert LastWith(host, rows[..3], 1, "start_time") == 1;
    assert LastWith(host, rows[..3], 1, "end_time") == 2;
  }

  /** `SummaryBook` resolves to the normalised start and end and the wafer figure. */
  lemma ResolveSummaryBook(host: Host, startValue: Value, endValue: Value, wafers: Value)
    requires NormalizeTs(host, startValue).Some? && NormalizeTs(host, endValue).Some?
    ensures ResolveTimes(host, SummaryBook(startValue, endValue, wafers)) ==
      Ok(Times(NormalizeTs(host, startValue).value, NormalizeTs(host, endValue).value,
               ToNumberOrNull(host, CellToValue(wafers)).GetOr(0.0)))
  {
    ScanOfSummaryBook(host, startValue, endValue, wafers);
  }

  /** A summary sheet whose start and end are UTC midnights `days - 1` days apart. */
  lemma ParseSummaryBook(host: Host, startValue: Value, endValue: Value, wafers: Value, s: int, e: int, days: nat)
    requires -MaxTimeMs <= s <= MaxTimeMs && -MaxTimeMs <= e <= MaxTimeMs
    requires NormalizeTs(host, startValue) == Some(ValidDate(s))
    requires NormalizeTs(host, endValue) == Some(ValidDate(e))
    requires s % DayMs == 0 && e % DayMs == 0 && days >= 1 && s + (days - 1) * DayMs == e
    requires !TwoDigitYear(s) && !TwoDigitYear(e)
    ensures ParseWindow(host, SummaryBook(startValue, endValue, wafers)) ==
      Ok(SimWindow(s, e, days, ToNumberOrNull(host, CellToValue(wafers)).GetOr(0.0)))
  {
    ResolveSummaryBook(host, startValue, endValue, wafers);
    assert NormalizeToDayUtc(ValidDate(s)) == ValidDate(s);
    assert NormalizeToDayUtc(ValidDate(e)) == ValidDate(e);
    assert DayCount(s, e) == days;
  }

  /**
   * Start 2023-07-01 and end 2023-07-03, given as dates the host parses, with
   * 500 wafer starts, give a three-day window.
   */
  lemma StringDatesScenario(host: Host)
    requires host.parseDate("2023-07-01") == ValidDate(1_688_169_600_000)
    requires host.parseDate("2023-07-03") == ValidDate(1_688_342_400_000)
    ensures ParseWindow(host, SummaryBook(Str("2023-07-01"), Str("2023-07-03"), Num(500.0)))
      == Ok(SimWindow(1_688_169_600_000, 1_688_342_400_000, 3, 500.0))
  {
    WholeDays(19539);
    WholeDays(19541);
    assert NormalizeTs(host, Str("2023-07-01")) == Some(ValidDate(1_688_169_600_000));
    assert NormalizeTs(host, Str("2023-07-03")) == Some(ValidDate(1_688_342_400_000));
    CellNumbers(host, 500.0, "", Null, Null);
    ParseSummaryBook(host, Str("2023-07-01"), Str("2023-07-03"), Num(500.0), 1_688_169_600_000, 1_688_342_400_000, 3);
  }

  /** Serial days 45108 to 45112 (2023-07-01 to 2023-07-05) give five days. */
  lemma SerialDatesScenario(host: Host)
    ensures ParseWindow(host, SummaryBook(Num(45108.0), Num(45112.0), Null))
      == Ok(SimWindow(1_688_169_600_000, 1_688_515_200_000, 5, 0.0))
  {
    SerialDayIsUtcMidnight(host, 45108);
    SerialDayIsUtcMidnight(host, 45112);
    WholeDays(19539);
    WholeDays(19543);
    CellNumbers(host, 0.0, "", Null, Null);
    ParseSummaryBook(host, Num(45108.0), Num(45112.0), Null, 1_688_169_600_000, 1_688_515_200_000, 5);
  }

  /**
   * Dates entered as Unix-epoch milliseconds instead of serial days overflow the
   * Date range: as written the window is accepted with a NaN day count; the
   * corrected check rejects it.
   */
  lemma EpochMillisecondsAcceptedAsWritten(host: Host)
    ensures var wb := SummaryBook(Num(1_688_169_600_000.0), Num(1_688_342_400_000.0), Num(500.0));
      && ParseWindowAsWritten(host, wb) == Ok(RawWindow(InvalidDate, InvalidDate, None, 500.0))
      && ParseWindow(host, wb) == Err(InvalidWindow)
  {
    ScanOfSummaryBook(host, Num(1_688_169_600_000.0), Num(1_688_342_400_000.0), Num(500.0));
    var k1 := (1_688_169_600_000 - UnixEpochSerial) * DayMs;
    var k2 := (1_688_342_400_000 - UnixEpochSerial) * DayMs;
    assert (1_688_169_600_000.0 - UnixEpochSerial as real) * DayMs as real == k1 as real;
    assert (1_688_342_400_000.0 - UnixEpochSerial as real) * DayMs as real == k2 as real;
    RoundOfInteger(k1);
    RoundOfInteger(k2);
  }
}
