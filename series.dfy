/**
 * The per-metric series store: one fixed-length array per metric key, slot
 * `day` holding the number in row `2 + day` of the metric's worksheet.
 */
module Series {
  import opened JsValues
  import opened Workbook
  import opened Cells

  /** The keys of the series table, in its declaration order. */
  datatype MetricKey =
    | Moi | MoiInspect
    | WipSize | StartedWip | ExitedWip | WipSizeAvg | WipMin | WipMax | UnstartedLots

  const AllKeys: seq<MetricKey> :=
    [Moi, MoiInspect, WipSize, StartedWip, ExitedWip, WipSizeAvg, WipMin, WipMax, UnstartedLots]

  /** The position of a key in the table. */
  function KeyIndex(k: MetricKey): (i: nat)
    ensures i < |AllKeys| && AllKeys[i] == k
  {
    match k
    case Moi => 0
    case MoiInspect => 1
    case WipSize => 2
    case StartedWip => 3
    case ExitedWip => 4
    case WipSizeAvg => 5
    case WipMin => 6
    case WipMax => 7
    case UnstartedLots => 8
  }

  /** Every key is listed, once. */
  lemma AllKeysListed(k: MetricKey)
    ensures k in AllKeys
    ensures forall i, j :: 0 <= i < j < |AllKeys| ==> AllKeys[i] != AllKeys[j]
  {
  }

  /** Where a metric comes from: its worksheet and the header candidates of its value column. */
  datatype SeriesSpec = SeriesSpec(sheet: string, valueCol: seq<Candidate>)

  const DailyMOverI: string := "Daily_M_Over_I"
  const CapacityDaily: string := "Capacity_Daily"

  function Spec(key: MetricKey): SeriesSpec {
    match key
    case Moi => SeriesSpec(DailyMOverI, [Exact("m_over_i_daily")])
    case MoiInspect => SeriesSpec(DailyMOverI, [Exact("m_over_i_inspection_daily")])
    case WipSize => SeriesSpec(CapacityDaily, [Exact("wip_size")])
    case StartedWip => SeriesSpec(CapacityDaily, [Exact("starts")])
    case ExitedWip => SeriesSpec(CapacityDaily, [Exact("exits")])
    case WipSizeAvg => SeriesSpec(CapacityDaily, [Exact("wip_size_avg")])
    case WipMin => SeriesSpec(CapacityDaily, [Exact("wip_min")])
    case WipMax => SeriesSpec(CapacityDaily, [Exact("wip_max")])
    case UnstartedLots => SeriesSpec(CapacityDaily, [Exact("unstarted_lots")])
  }

  /** The key at position `i` has position `i`. */
  lemma KeyIndexOfPosition(i: nat)
    requires i < |AllKeys|
    ensures KeyIndex(AllKeys[i]) == i
  {
    AllKeysListed(AllKeys[i]);
    var j := KeyIndex(AllKeys[i]);
    assert AllKeys[j] == AllKeys[i];
  }

  /** A slot of a series: a number, or `null`. */
  type Slot = Option<real>

  /** The store: one array per key. */
  type Store = map<MetricKey, array<Slot>>

  /** `new Array(len).fill(null)` */
  function NullSeries(len: nat): (s: seq<Slot>)
    ensures |s| == len && forall d :: 0 <= d < len ==> s[d] == None
  {
    seq(len, _ => None)
  }

  /** `initSeriesStore(len)`: a fresh, null-filled array of length `len` for every key. */
  method InitSeriesStore(len: nat) returns (store: Store)
    ensures forall k :: k in store
    ensures forall k :: fresh(store[k]) && store[k].Length == len && store[k][..] == NullSeries(len)
    ensures forall k1, k2 :: k1 != k2 ==> store[k1] != store[k2]
  {
    store := map[];
    for i := 0 to |AllKeys|
      invariant store.Keys == set j | 0 <= j < i :: AllKeys[j]
      invariant forall k :: k in store ==> fresh(store[k]) && store[k].Length == len && store[k][..] == NullSeries(len)
      invariant forall k1, k2 :: k1 in store && k2 in store && k1 != k2 ==> store[k1] != store[k2]
    {
      var a := new Slot[len](_ => None);
      assert a[..] == NullSeries(len);
      store := store[AllKeys[i] := a];
    }
    forall k: MetricKey ensures k in store {
      AllKeysListed(k);
      var j :| 0 <= j < |AllKeys| && AllKeys[j] == k;
      assert k in set j | 0 <= j < |AllKeys| :: AllKeys[j];
    }
  }

  /* ---------- the fill, as a specification ---------- */

  /**
   * The 1-based value column of a metric: None when its worksheet is missing or
   * no header matches; otherwise one past the first match.
   */
  function ValueColumn(host: Host, wb: Book, key: MetricKey): (col: Option<nat>)
    ensures col.Some? ==> (Spec(key).sheet in wb && col.value >= 1 &&
      IsFirstMatch(host, Headers(host, wb[Spec(key).sheet]), Spec(key).valueCol, col.value - 1))
    ensures col.None? ==> (Spec(key).sheet !in wb ||
      IsFirstMatch(host, Headers(host, wb[Spec(key).sheet]), Spec(key).valueCol, -1))
  {
    var spec := Spec(key);
    if spec.sheet !in wb then None
    else
      var idx0 := FindCol(host, Headers(host, wb[spec.sheet]), spec.valueCol);
      if idx0 < 0 then None else Some(idx0 + 1)
  }

  /**
   * Whether the sheet holds a row numbered `n`: the guard of the fill, with
   * the row looked up by `ws.findRow(n)`; as written, `ws.getRow(n)` makes
   * the guard pass for rows the sheet does not hold (see the as-written fill below).
   */
  predicate RowPresent(ws: Sheet, n: int) {
    FindRow(ws, n).Some? && FindRow(ws, n).value.number == n
  }

  /** The number in column `col` of row `2 + day`, when that row is present. */
  function DayValue(host: Host, ws: Sheet, col: nat, day: nat): Slot
    requires RowPresent(ws, 2 + day)
  {
    ToNumberOrNull(host, CellToValue(CellAt(FindRow(ws, 2 + day).value, col)))
  }

  /** One slot after the fill: the day's number when its row is present, else what was there. */
  function FillSlot(host: Host, ws: Sheet, col: nat, day: nat, prev: Slot): Slot {
    if RowPresent(ws, 2 + day) then DayValue(host, ws, col, day) else prev
  }

  /** The contents of `store[key]` after `fillSeriesFromSheet`, given its contents before. */
  function Filled(host: Host, wb: Book, key: MetricKey, s: seq<Slot>): (r: seq<Slot>)
    ensures |r| == |s|
    ensures forall day :: 0 <= day < |s| && r[day] != s[day] ==>
      ValueColumn(host, wb, key).Some? && RowPresent(wb[Spec(key).sheet], 2 + day)
  {
    match ValueColumn(host, wb, key)
    case None => s
    case Some(col) => seq(|s|, day requires 0 <= day < |s| => FillSlot(host, wb[Spec(key).sheet], col, day, s[day]))
  }

  /**
   * The fill keeps the length; leaves everything alone when the sheet or the
   * column is missing; otherwise sets every day whose row is present and keeps
   * every other slot.
   */
  lemma FilledSlots(host: Host, wb: Book, key: MetricKey, s: seq<Slot>)
    ensures |Filled(host, wb, key, s)| == |s|
    ensures ValueColumn(host, wb, key).None? ==> Filled(host, wb, key, s) == s
    ensures ValueColumn(host, wb, key).Some? ==>
      var ws, col := wb[Spec(key).sheet], ValueColumn(host, wb, key).value;
      forall day :: 0 <= day < |s| ==>
        Filled(host, wb, key, s)[day] == if RowPresent(ws, 2 + day) then DayValue(host, ws, col, day) else s[day]
  {
  }

  /** Filling twice is filling once: a filled slot does not depend on what it held. */
  lemma FilledIdempotent(host: Host, wb: Book, key: MetricKey, s: seq<Slot>)
    ensures Filled(host, wb, key, Filled(host, wb, key, s)) == Filled(host, wb, key, s)
  {
    var once := Filled(host, wb, key, s);
    if ValueColumn(host, wb, key).Some? {
      var ws, col := wb[Spec(key).sheet], ValueColumn(host, wb, key).value;
      var twice := Filled(host, wb, key, once);
      assert |twice| == |once|;
      forall day | 0 <= day < |once| ensures twice[day] == once[day] {
        assert twice[day] == FillSlot(host, ws, col, day, once[day]);
      }
    }
  }

  /** A series as `buildSeriesStore` leaves it: the fill of a null-filled array. */
  function BuiltSeries(host: Host, wb: Book, key: MetricKey, nDays: nat): seq<Slot> {
    Filled(host, wb, key, NullSeries(nDays))
  }

  /**
   * A built series has `nDays` slots; slot `day` is the number in row `2 + day`
   * of the value column, and null when the sheet, the column or the row is missing.
   */
  lemma BuiltSeriesSlots(host: Host, wb: Book, key: MetricKey, nDays: nat, day: nat)
    requires day < nDays
    ensures |BuiltSeries(host, wb, key, nDays)| == nDays
    ensures BuiltSeries(host, wb, key, nDays)[day] ==
      match ValueColumn(host, wb, key)
      case None => None
      case Some(col) =>
        if RowPresent(wb[Spec(key).sheet], 2 + day) then DayValue(host, wb[Spec(key).sheet], col, day) else None
  {
    FilledSlots(host, wb, key, NullSeries(nDays));
  }

  /** Days beyond the last row the sheet holds stay null. */
  lemma DaysPastTheSheetStayNull(host: Host, wb: Book, key: MetricKey, nDays: nat, day: nat)
    requires day < nDays
    requires Spec(key).sheet in wb && 2 + day > |wb[Spec(key).sheet].rows|
    ensures BuiltSeries(host, wb, key, nDays)[day] == None
  {
    BuiltSeriesSlots(host, wb, key, nDays, day);
  }

  /**
   * An empty cell in a present row reads as 0, not null: `Number(null)` is 0.
   */
  lemma EmptyCellReadsAsZero(host: Host, wb: Book, key: MetricKey, nDays: nat, day: nat)
    requires day < nDays && ValueColumn(host, wb, key).Some?
    requires RowPresent(wb[Spec(key).sheet], 2 + day)
    requires CellAt(FindRow(wb[Spec(key).sheet], 2 + day).value, ValueColumn(host, wb, key).value) == Null
    ensures BuiltSeries(host, wb, key, nDays)[day] == Some(0.0)
  {
    BuiltSeriesSlots(host, wb, key, nDays, day);
  }

  lemma ValueColumnOfMatch(host: Host, wb: Book, key: MetricKey, idx0: int)
    requires Spec(key).sheet in wb && idx0 >= 0
    requires idx0 == FindCol(host, Headers(host, wb[Spec(key).sheet]), Spec(key).valueCol)
    ensures ValueColumn(host, wb, key) == Some(idx0 + 1)
  {
  }

  /** Slot-by-slot agreement with `FillSlot` is the fill. */
  lemma FilledFromSlots(host: Host, wb: Book, key: MetricKey, col: nat, before: seq<Slot>, after: seq<Slot>)
    requires ValueColumn(host, wb, key) == Some(col)
    requires |after| == |before|
    requires forall d :: 0 <= d < |before| ==> after[d] == FillSlot(host, wb[Spec(key).sheet], col, d, before[d])
    ensures after == Filled(host, wb, key, before)
  {
  }

  /* ---------- the row lookup as written ---------- */

  /**
   * One slot as the fill is written: `ws.getRow` always yields a row, so the
   * guard only skips a held row with a foreign number, and a day with no row
   * reads the empty cell of a new row, `Number(null)`, which is 0.
   */
  function FillSlotAsWritten(host: Host, ws: Sheet, col: nat, day: nat, prev: Slot): Slot {
    var row := GetRow(ws, 2 + day);
    if row.number == 2 + day then ToNumberOrNull(host, CellToValue(CellAt(row, col))) else prev
  }

  /** `fillSeriesFromSheet` as written, with `ws.getRow`. */
  function FilledAsWritten(host: Host, wb: Book, key: MetricKey, s: seq<Slot>): (r: seq<Slot>)
    ensures |r| == |s|
    ensures ValueColumn(host, wb, key).Some? ==>
      forall day :: 0 <= day < |s| && FindRow(wb[Spec(key).sheet], 2 + day).None? ==> r[day] == Some(0.0)
  {
    match ValueColumn(host, wb, key)
    case None => s
    case Some(col) => seq(|s|, day requires 0 <= day < |s| => FillSlotAsWritten(host, wb[Spec(key).sheet], col, day, s[day]))
  }

  /**
   * As written, the fill agrees with the corrected one on every day whose row
   * the sheet holds, and writes 0 on every other day; in a well-numbered sheet
   * the guard never skips a day.
   */
  lemma FilledAsWrittenSlots(host: Host, wb: Book, key: MetricKey, s: seq<Slot>)
    ensures |FilledAsWritten(host, wb, key, s)| == |s|
    ensures ValueColumn(host, wb, key).None? ==> FilledAsWritten(host, wb, key, s) == s
    ensures ValueColumn(host, wb, key).Some? ==>
      var ws, col := wb[Spec(key).sheet], ValueColumn(host, wb, key).value;
      forall day :: 0 <= day < |s| ==>
        FilledAsWritten(host, wb, key, s)[day] ==
          if FindRow(ws, 2 + day).None? then Some(0.0) else Filled(host, wb, key, s)[day]
    ensures ValueColumn(host, wb, key).Some? && WellNumbered(wb[Spec(key).sheet]) ==>
      var ws, col := wb[Spec(key).sheet], ValueColumn(host, wb, key).value;
      forall day :: 0 <= day < |s| ==>
        FilledAsWritten(host, wb, key, s)[day] == ToNumberOrNull(host, CellToValue(CellAt(GetRow(ws, 2 + day), col)))
  {
    if ValueColumn(host, wb, key).Some? {
      var ws, col := wb[Spec(key).sheet], ValueColumn(host, wb, key).value;
      forall day | 0 <= day < |s|
        ensures FilledAsWritten(host, wb, key, s)[day] ==
          if FindRow(ws, 2 + day).None? then Some(0.0) else Filled(host, wb, key, s)[day]
        ensures WellNumbered(ws) ==>
          FilledAsWritten(host, wb, key, s)[day] == ToNumberOrNull(host, CellToValue(CellAt(GetRow(ws, 2 + day), col)))
      {
        if WellNumbered(ws) {
          GetRowNumber(ws, 2 + day);
        }
      }
    }
  }

  /**
   * A day past the end of a short metric sheet: as written its slot becomes 0;
   * with the row looked up by `findRow` it stays null.
   */
  lemma DaysPastTheSheetReadZeroAsWritten(host: Host, wb: Book, key: MetricKey, nDays: nat, day: nat)
    requires day < nDays && ValueColumn(host, wb, key).Some?
    requires 2 + day > |wb[Spec(key).sheet].rows|
    ensures FilledAsWritten(host, wb, key, NullSeries(nDays))[day] == Some(0.0)
    ensures BuiltSeries(host, wb, key, nDays)[day] == None
  {
    FilledAsWrittenSlots(host, wb, key, NullSeries(nDays));
    DaysPastTheSheetStayNull(host, wb, key, nDays, day);
  }

  /* ---------- the fill, in place ---------- */

  /**
   * `fillSeriesFromSheet(wb, nDays, store, key)`: writes slot `day` of
   * `store[key]` for each day whose row is present, and nothing else.
   */
  method FillSeriesFromSheet(host: Host, wb: Book, nDays: nat, store: Store, key: MetricKey)
    requires key in store && store[key].Length == nDays
    modifies store[key]
    ensures store[key][..] == Filled(host, wb, key, old(store[key][..]))
  {
    var spec := Spec(key);
    if spec.sheet !in wb {
      return;
    }
    var ws := wb[spec.sheet];
    var headers := HeadersFromWorksheet(host, ws);
    var valueIdx0 := FindColIndex(host, headers, spec.valueCol);
    if valueIdx0 < 0 {
      return;
    }
    ValueColumnOfMatch(host, wb, key, valueIdx0);
    FillDays(host, ws, valueIdx0 + 1, nDays, store[key]);
    FilledFromSlots(host, wb, key, valueIdx0 + 1, old(store[key][..]), store[key][..]);
  }

  /**
   * The day loop of `fillSeriesFromSheet`: row `2 + day` into slot `day`,
   * skipping rows the sheet does not hold (looked up with `findRow`).
   */
  method FillDays(host: Host, ws: Sheet, valueIdx: nat, nDays: nat, a: array<Slot>)
    requires a.Length == nDays
    modifies a
    ensures forall d :: 0 <= d < a.Length ==> a[d] == FillSlot(host, ws, valueIdx, d, old(a[d]))
  {
    for day := 0 to nDays
      invariant forall d :: day <= d < a.Length ==> a[d] == old(a[d])
      invariant forall d :: 0 <= d < day ==> a[d] == FillSlot(host, ws, valueIdx, d, old(a[d]))
    {
      var rowNumber := 2 + day;
      var row := FindRow(ws, rowNumber);
      if row.Some? && row.value.number == rowNumber {
        var raw := CellToValue(CellAt(row.value, valueIdx));
        var val := ToNumberOrNull(host, raw);
        a[day] := val;
      }
    }
  }

  /**
   * Steps 2 and 3 of `buildSeriesStore`: a null-filled store of `nDays` slots
   * per key, then each key's series filled in the table's key order.
   */
  method BuildStore(host: Host, wb: Book, nDays: nat) returns (store: Store)
    ensures forall k :: k in store && fresh(store[k]) && store[k].Length == nDays
    ensures forall k1, k2 :: k1 != k2 ==> store[k1] != store[k2]
    ensures forall k :: store[k][..] == BuiltSeries(host, wb, k, nDays)
  {
    store := InitSeriesStore(nDays);
    FillAll(host, wb, nDays, store);
  }

  /** Step 3 of `buildSeriesStore`: `fillSeriesFromSheet` for every key, in the table's order. */
  method FillAll(host: Host, wb: Book, nDays: nat, store: Store)
    requires forall k :: k in store && store[k].Length == nDays
    requires forall k1, k2 :: k1 != k2 ==> store[k1] != store[k2]
    modifies store.Values
    ensures forall k :: store[k][..] == Filled(host, wb, k, old(store[k][..]))
  {
    for i := 0 to |AllKeys|
      invariant forall k :: store[k][..] == if KeyIndex(k) < i then Filled(host, wb, k, old(store[k][..])) else old(store[k][..])
    {
      KeyIndexOfPosition(i);
      FillSeriesFromSheet(host, wb, nDays, store, AllKeys[i]);
    }
  }
}
