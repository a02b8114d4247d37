/**
 * The cell and header helpers of the workbook data service: timestamp
 * normalisation, rich-value unwrapping, numeric coercion, header naming and
 * column lookup.
 */
module Cells {
  import opened JsValues
  import opened Workbook

  /* ---------- timestamps ---------- */

  /** The spreadsheet serial number of 1970-01-01 in the 1899-12-30 convention. */
  const UnixEpochSerial: int := 25569

  /**
   * `normalizeTs`: a Date passes through, a string is parsed (an unparsable one
   * gives null), a number is a spreadsheet serial day, and a rich value is
   * unwrapped through `result`, then `text`, then `value`. Falsy and
   * unrecognised values give null.
   */
  function NormalizeTs(host: Host, v: Value): (r: Option<JsDate>)
    ensures !Truthy(v) ==> r.None?
    ensures v.DateV? ==> r == Some(v.d)
    ensures v.Num? ==> (r.None? <==> v.x == 0.0)
    ensures v.Str? ==> r != Some(InvalidDate)
  {
    if !Truthy(v) then None
    else match v
      case DateV(d) => Some(d)
      case Str(s) => if host.parseDate(s).InvalidDate? then None else Some(host.parseDate(s))
      case Num(x) => Some(MakeDate(RoundHalfUp((x - UnixEpochSerial as real) * DayMs as real)))
      case Obj(res, txt, val) =>
        if res != Null then NormalizeTs(host, res)
        else if txt != Null then NormalizeTs(host, txt)
        else if val != Null then NormalizeTs(host, val)
        else None
      case _ => None
  }

  /**
   * The scalar that `normalizeTs` finally looks at: rich values are followed
   * through their first present field among `result`, `text` and `value`.
   */
  function Unwrap(v: Value): (r: Value)
    ensures r.Obj? ==> r == Obj(Null, Null, Null)
  {
    match v
    case Obj(res, txt, val) =>
      if res != Null then Unwrap(res)
      else if txt != Null then Unwrap(txt)
      else if val != Null then Unwrap(val)
      else v
    case _ => v
  }

  /** The rules `normalizeTs` applies to a value that is not a rich value. */
  function NormalizeScalar(host: Host, v: Value): Option<JsDate> {
    match v
    case DateV(d) => Some(d)
    case Str(s) => if s == "" || host.parseDate(s).InvalidDate? then None else Some(host.parseDate(s))
    case Num(x) => if x == 0.0 then None else Some(MakeDate(RoundHalfUp((x - UnixEpochSerial as real) * DayMs as real)))
    case _ => None
  }

  /** Nested rich values are unwrapped first and the scalar rules applied once. */
  lemma {:induction false} NormalizeTsUnwraps(host: Host, v: Value)
    ensures NormalizeTs(host, v) == NormalizeScalar(host, Unwrap(v))
  {
    match v
    case Obj(res, txt, val) =>
      if res != Null { NormalizeTsUnwraps(host, res); }
      else if txt != Null { NormalizeTsUnwraps(host, txt); }
      else if val != Null { NormalizeTsUnwraps(host, val); }
    case _ =>
  }

  /** A string never normalises to an Invalid Date; only numbers and Date values can. */
  lemma InvalidDateOnlyFromNumbersOrDates(host: Host, v: Value)
    requires NormalizeTs(host, v) == Some(InvalidDate)
    ensures Unwrap(v).Num? || Unwrap(v) == DateV(InvalidDate)
  {
    NormalizeTsUnwraps(host, v);
  }

  /**
   * A whole serial day `n` (other than the falsy 0) is the UTC midnight `n - 25569`
   * days after the Unix epoch, as long as that lies in the Date range; outside
   * the years 0 to 99 it is its own day.
   */
  lemma SerialDayIsUtcMidnight(host: Host, n: int)
    requires n != 0
    requires -MaxTimeMs <= (n - UnixEpochSerial) * DayMs <= MaxTimeMs
    ensures NormalizeTs(host, Num(n as real)) == Some(ValidDate((n - UnixEpochSerial) * DayMs))
    ensures !(Year0Day <= n - UnixEpochSerial < Year100Day) ==>
      NormalizeToDayUtc(ValidDate((n - UnixEpochSerial) * DayMs)) == ValidDate((n - UnixEpochSerial) * DayMs)
  {
    var k := (n - UnixEpochSerial) * DayMs;
    assert (n as real - UnixEpochSerial as real) * DayMs as real == k as real;
    RoundOfInteger(k);
    WholeDays(n - UnixEpochSerial);
  }

  /** A whole number of days is a multiple of the day length. */
  lemma WholeDays(m: int)
    ensures (m * DayMs) % DayMs == 0 && (m * DayMs) / DayMs == m
  {
  }

  /** Day numbers (days from 1970-01-01) of 0000-01-01, 0100-01-01 and 1900-01-01. */
  const Year0Day: int := -719_528
  const Year100Day: int := -683_003
  const Year1900Day: int := -25_567

  /**
   * A time value in the UTC years 0 to 99, which `Date.UTC` reads as the
   * years 1900 to 1999.
   */
  predicate TwoDigitYear(ms: int) {
    Year0Day <= ms / DayMs < Year100Day
  }

  /**
   * The UTC year `y` (0 to 99) and the day of that year of a day number in
   * those years; in that century the leap years are those divisible by 4.
   */
  function EarlyYearAndDay(day: int): (yd: (int, int))
    requires Year0Day <= day < Year100Day
    ensures 0 <= yd.0 < 100 && 0 <= yd.1 && (yd.1 < 365 || (yd.1 == 365 && yd.0 % 4 == 0))
    ensures day == Year0Day + 365 * yd.0 + (yd.0 + 3) / 4 + yd.1
  {
    var t := day - Year0Day;
    var c, rem := t / 1461, t % 1461;
    if rem < 366 then (4 * c, rem)
    else (4 * c + 1 + (rem - 366) / 365, (rem - 366) % 365)
  }

  /** The day number of January 1 of the year `1900 + y`, for `0 <= y < 100`; 1900 is not a leap year. */
  function Year1900PlusStart(y: int): int
    requires 0 <= y < 100
  {
    Year1900Day + 365 * y + (if y == 0 then 0 else (y - 1) / 4)
  }

  /**
   * `normalizeToDayUTC`: `Date.UTC` of the date's UTC year, month and day,
   * that is the UTC midnight that starts its day, except that `Date.UTC`
   * reads a year from 0 to 99 as `1900 + year`. A day of year 0 keeps its
   * month and day in 1900, where 29 February runs over to 1 March.
   */
  function NormalizeToDayUtc(d: JsDate): (r: JsDate)
    ensures r.ValidDate? <==> d.ValidDate?
    ensures d.ValidDate? ==> r.ms % DayMs == 0 && !TwoDigitYear(r.ms)
    ensures d.ValidDate? && !TwoDigitYear(d.ms) ==> r.ms <= d.ms < r.ms + DayMs
    ensures d.ValidDate? && TwoDigitYear(d.ms) ==> Year1900Day * DayMs <= r.ms
  {
    match d
    case InvalidDate => InvalidDate
    case ValidDate(ms) =>
      var day := ms / DayMs;
      if Year0Day <= day < Year100Day then
        var (y, doy) := EarlyYearAndDay(day);
        var shifted := Year1900PlusStart(y) + (if y == 0 && doy >= 60 then doy - 1 else doy);
        WholeDays(shifted);
        ValidDate(shifted * DayMs)
      else
        DayStartInRange(ms);
        ValidDate(ms - ms % DayMs)
  }

  /**
   * A date in the years 0 to 99 moves on by 1900 calendar years: 693960 days,
   * and one day more from 1 January to 29 February of year 0, because 1900
   * has no 29 February.
   */
  lemma TwoDigitYearShift(ms: TimeMs)
    requires TwoDigitYear(ms)
    ensures NormalizeToDayUtc(ValidDate(ms)).ms ==
      (ms / DayMs + 693_960 + (if ms / DayMs < Year0Day + 60 then 1 else 0)) * DayMs
  {
    var day := ms / DayMs;
    var (y, doy) := EarlyYearAndDay(day);
    if y >= 1 {
      assert (y + 3) / 4 == (y - 1) / 4 + 1;
    }
  }

  /** 0050-01-01T12:00Z, in the first century, is truncated to 1950-01-01. */
  lemma YearFiftyBecomesNineteenFifty()
    ensures NormalizeToDayUtc(ValidDate(-701_265 * DayMs + 43_200_000)) == ValidDate(-7_305 * DayMs)
  {
    TwoDigitYearShift(-701_265 * DayMs + 43_200_000);
  }

  lemma DayStartInRange(ms: TimeMs)
    ensures -MaxTimeMs <= ms - ms % DayMs <= MaxTimeMs
    ensures (ms - ms % DayMs) % DayMs == 0
  {
    var q := ms / DayMs;
    assert ms - ms % DayMs == q * DayMs;
    assert q >= -100_000_000;
    WholeDays(q);
  }

  /** Truncating to the day is idempotent. */
  lemma NormalizeToDayIdempotent(d: JsDate)
    ensures NormalizeToDayUtc(NormalizeToDayUtc(d)) == NormalizeToDayUtc(d)
  {
  }

  /* ---------- cells and numbers ---------- */

  /** `cellToValue`: a rich value is replaced by its `result`, else its `text`. */
  function CellToValue(v: Value): (r: Value)
    ensures !v.Obj? ==> r == v
    ensures Unwrap(r) == Unwrap(v)
  {
    match v
    case Obj(res, txt, _) => if res != Null then res else if txt != Null then txt else v
    case _ => v
  }

  /** Unwrapping the cell first does not change what `normalizeTs` makes of it. */
  lemma CellToValueAgreesWithNormalizeTs(host: Host, v: Value)
    ensures NormalizeTs(host, CellToValue(v)) == NormalizeTs(host, v)
  {
  }

  /**
   * `toNumberOrNull`: `Number(v)` when it is finite. JavaScript's `Number`
   * maps null to 0 and booleans to 0 and 1, a Date to its time value, and a
   * plain object to NaN.
   */
  function ToNumberOrNull(host: Host, v: Value): (r: Option<real>)
    ensures r.None? <==> v.Obj? || v == DateV(InvalidDate) || (v.Str? && host.parseNumber(v.s).None?)
    ensures v == Null ==> r == Some(0.0)
  {
    match v
    case Null => Some(0.0)
    case Bool(b) => Some(if b then 1.0 else 0.0)
    case Num(x) => Some(x)
    case Str(s) => host.parseNumber(s)
    case DateV(d) => if d.ValidDate? then Some(d.ms as real) else None
    case Obj(_, _, _) => None
  }

  /**
   * What a metric cell reads as: its number, a formula's numeric result, and 0
   * for an empty cell; a rich text or error value reads as null.
   */
  lemma CellNumbers(host: Host, x: real, s: string, t: Value, w: Value)
    ensures ToNumberOrNull(host, CellToValue(Num(x))) == Some(x)
    ensures ToNumberOrNull(host, CellToValue(Obj(Num(x), t, w))) == Some(x)
    ensures ToNumberOrNull(host, CellToValue(Null)) == Some(0.0)
    ensures ToNumberOrNull(host, CellToValue(Obj(Null, Null, w))) == None
    ensures ToNumberOrNull(host, CellToValue(Str(s))) == host.parseNumber(s)
  {
  }

  /* ---------- headers ---------- */

  /** Header `i` (1-based): `String(vals[i] ?? "col_i").trim()`, or `col_i` when that is empty. */
  function HeaderName(host: Host, vals: seq<Value>, i: nat): string
    requires i < |vals|
  {
    var name := Trim(if vals[i] == Null then PlaceholderName(i) else ToStr(host, vals[i]));
    if name == "" then PlaceholderName(i) else name
  }

  /** The header names of a worksheet, in column order. */
  function Headers(host: Host, ws: Sheet): seq<string> {
    var vals := HeaderValues(ws);
    seq(|vals| - 1, k requires 0 <= k < |vals| - 1 => HeaderName(host, vals, k + 1))
  }

  /**
   * Every header name is trimmed and non-empty; a blank header is `col_i`,
   * and any other header is its text, trimmed.
   */
  lemma HeaderNameSpec(host: Host, vals: seq<Value>, i: nat)
    requires i < |vals|
    ensures HeaderName(host, vals, i) != "" && IsTrimmed(HeaderName(host, vals, i))
    ensures vals[i] == Null || AllWs(ToStr(host, vals[i])) ==> HeaderName(host, vals, i) == PlaceholderName(i)
    ensures vals[i] != Null && !AllWs(ToStr(host, vals[i])) ==> HeaderName(host, vals, i) == Trim(ToStr(host, vals[i]))
  {
    TrimProperties(if vals[i] == Null then PlaceholderName(i) else ToStr(host, vals[i]));
    TrimOfTrimmed(PlaceholderName(i));
  }

  /**
   * There is one header name per header position after the hole; each is
   * non-empty and trimmed, and a missing header is named `col_i`.
   */
  lemma HeadersSpec(host: Host, ws: Sheet)
    ensures |Headers(host, ws)| == |HeaderValues(ws)| - 1
    ensures forall k :: 0 <= k < |Headers(host, ws)| ==> Headers(host, ws)[k] != "" && IsTrimmed(Headers(host, ws)[k])
    ensures forall k :: 0 <= k < |Headers(host, ws)| && HeaderValues(ws)[k + 1] == Null ==>
      Headers(host, ws)[k] == PlaceholderName(k + 1)
  {
    var vals, headers := HeaderValues(ws), Headers(host, ws);
    forall k | 0 <= k < |headers|
      ensures headers[k] != "" && IsTrimmed(headers[k])
      ensures vals[k + 1] == Null ==> headers[k] == PlaceholderName(k + 1)
    {
      HeaderNameSpec(host, vals, k + 1);
    }
  }

  /** `headersFromWorksheet`, with its loop over the header row's values. */
  method HeadersFromWorksheet(host: Host, ws: Sheet) returns (headers: seq<string>)
    ensures headers == Headers(host, ws)
    ensures |headers| == |HeaderValues(ws)| - 1
    ensures forall k :: 0 <= k < |headers| ==> headers[k] != "" && IsTrimmed(headers[k])
    ensures forall k :: 0 <= k < |headers| && HeaderValues(ws)[k + 1] == Null ==> headers[k] == PlaceholderName(k + 1)
  {
    var vals := HeaderValues(ws);
    headers := [];
    var i := 1;
    while i < |vals|
      invariant 1 <= i <= |vals|
      invariant |headers| == i - 1
      invariant forall k :: 0 <= k < i - 1 ==> headers[k] == HeaderName(host, vals, k + 1)
    {
      var name := Trim(if vals[i] == Null then PlaceholderName(i) else ToStr(host, vals[i]));
      headers := headers + [if name == "" then PlaceholderName(i) else name];
      i := i + 1;
    }
    assert headers == Headers(host, ws);
    HeadersSpec(host, ws);
  }

  /* ---------- column lookup ---------- */

  /** A column-name candidate: a string (compared case-insensitively) or a pattern. */
  datatype Candidate = Exact(name: string) | Pattern(source: string)

  /** Whether header `header` satisfies `cand`, after `String(h || "").trim()`. */
  predicate ColMatches(host: Host, cand: Candidate, header: string) {
    var h := Trim(header);
    match cand
    case Exact(name) => Lower(h) == Lower(name)
    case Pattern(src) => host.test(src, h)
  }

  predicate NoColumnMatches(host: Host, headers: seq<string>, cand: Candidate) {
    forall i :: 0 <= i < |headers| ==> !ColMatches(host, cand, headers[i])
  }

  /**
   * Candidate `k` is the earliest among `cands[c..]` that matches some column,
   * and `r` is the first column it matches.
   */
  ghost predicate Chosen(host: Host, headers: seq<string>, cands: seq<Candidate>, c: nat, k: nat, r: nat)
    requires c <= k < |cands| && r < |headers|
  {
    && ColMatches(host, cands[k], headers[r])
    && (forall j :: c <= j < k ==> NoColumnMatches(host, headers, cands[j]))
    && (forall i :: 0 <= i < r ==> !ColMatches(host, cands[k], headers[i]))
  }

  /**
   * `r` is what `findColIndex` must return: -1 when no candidate matches any
   * header; otherwise the first column matching the earliest candidate that
   * matches any column at all.
   */
  ghost predicate IsFirstMatchFrom(host: Host, headers: seq<string>, cands: seq<Candidate>, c: nat, r: int)
    requires c <= |cands|
  {
    if r < 0 then
      r == -1 && forall k :: c <= k < |cands| ==> NoColumnMatches(host, headers, cands[k])
    else
      r < |headers| && exists k :: c <= k < |cands| && Chosen(host, headers, cands, c, k, r)
  }

  ghost predicate IsFirstMatch(host: Host, headers: seq<string>, cands: seq<Candidate>, r: int) {
    IsFirstMatchFrom(host, headers, cands, 0, r)
  }

  /** The first column at or after `from` that matches `cand`, or -1. */
  function FirstColumnFrom(host: Host, headers: seq<string>, cand: Candidate, from: nat): (r: int)
    requires from <= |headers|
    ensures r == -1 || from <= r < |headers|
    ensures r == -1 ==> forall i :: from <= i < |headers| ==> !ColMatches(host, cand, headers[i])
    ensures r >= 0 ==> ColMatches(host, cand, headers[r]) && forall i :: from <= i < r ==> !ColMatches(host, cand, headers[i])
    decreases |headers| - from
  {
    if from == |headers| then -1
    else if ColMatches(host, cand, headers[from]) then from
    else FirstColumnFrom(host, headers, cand, from + 1)
  }

  /** The search from candidate `c` on. */
  function FindColFrom(host: Host, headers: seq<string>, cands: seq<Candidate>, c: nat): (r: int)
    requires c <= |cands|
    ensures IsFirstMatchFrom(host, headers, cands, c, r)
    decreases |cands| - c
  {
    if c == |cands| then -1
    else
      var i := FirstColumnFrom(host, headers, cands[c], 0);
      if i >= 0 then
        assert Chosen(host, headers, cands, c, c, i);
        i
      else
        var r := FindColFrom(host, headers, cands, c + 1);
        if r >= 0 then
          ChosenFromEarlier(host, headers, cands, c, r);
          r
        else r
  }

  /** A candidate that matches no column does not change which one is chosen. */
  lemma ChosenFromEarlier(host: Host, headers: seq<string>, cands: seq<Candidate>, c: nat, r: nat)
    requires c < |cands| && r < |headers|
    requires NoColumnMatches(host, headers, cands[c])
    requires IsFirstMatchFrom(host, headers, cands, c + 1, r)
    ensures IsFirstMatchFrom(host, headers, cands, c, r)
  {
    var k :| c + 1 <= k < |cands| && Chosen(host, headers, cands, c + 1, k, r);
    assert Chosen(host, headers, cands, c, k, r);
  }

  /** `findColIndex`, as a function: candidates in order, then columns in order. */
  function FindCol(host: Host, headers: seq<string>, cands: seq<Candidate>): (r: int)
    ensures IsFirstMatch(host, headers, cands, r)
  {
    FindColFrom(host, headers, cands, 0)
  }

  /** At most one index satisfies the characterisation. */
  lemma FirstMatchUnique(host: Host, headers: seq<string>, cands: seq<Candidate>, r1: int, r2: int)
    requires IsFirstMatch(host, headers, cands, r1) && IsFirstMatch(host, headers, cands, r2)
    ensures r1 == r2
  {
    if r1 >= 0 && r2 >= 0 {
      var k1 :| 0 <= k1 < |cands| && Chosen(host, headers, cands, 0, k1, r1);
      var k2 :| 0 <= k2 < |cands| && Chosen(host, headers, cands, 0, k2, r2);
    }
  }

  /** `findColIndex`, with its nested loops over candidates and columns. */
  method FindColIndex(host: Host, headers: seq<string>, cands: seq<Candidate>) returns (r: int)
    ensures IsFirstMatch(host, headers, cands, r)
    ensures r == FindCol(host, headers, cands)
  {
    var c := 0;
    while c < |cands|
      invariant 0 <= c <= |cands|
      invariant forall j :: 0 <= j < c ==> NoColumnMatches(host, headers, cands[j])
    {
      var i := 0;
      while i < |headers|
        invariant 0 <= i <= |headers|
        invariant forall i' :: 0 <= i' < i ==> !ColMatches(host, cands[c], headers[i'])
      {
        if ColMatches(host, cands[c], headers[i]) {
          r := i;
          assert Chosen(host, headers, cands, 0, c, r);
          FirstMatchUnique(host, headers, cands, r, FindCol(host, headers, cands));
          return;
        }
        i := i + 1;
      }
      c := c + 1;
    }
    r := -1;
    FirstMatchUnique(host, headers, cands, r, FindCol(host, headers, cands));
  }

  /** A string candidate needs a header of its own length: `wip_size` never selects `wip_size_avg`. */
  lemma ExactMatchNeedsEqualLength(host: Host, name: string, header: string)
    requires ColMatches(host, Exact(name), header)
    ensures |Trim(header)| == |name|
  {
    assert |Lower(Trim(header))| == |Lower(name)|;
  }

  /** Case is ignored, and a longer header containing the candidate is not a match. */
  lemma WipSizeScenario(host: Host)
    ensures FindCol(host, ["WIP_Size", "wip_size_avg"], [Exact("wip_size")]) == 0
    ensures FindCol(host, ["wip_size_avg", "WIP_Size"], [Exact("wip_size")]) == 1
    ensures FindCol(host, ["wip_size_avg"], [Exact("wip_size")]) == -1
  {
    var upper, avg, cand := "WIP_Size", "wip_size_avg", Exact("wip_size");
    assert Trim(upper) == upper by { TrimOfTrimmed(upper); }
    assert Lower(upper) == Lower("wip_size") by {
      assert forall i :: 0 <= i < 8 ==> LowerChar(upper[i]) == LowerChar("wip_size"[i]);
    }
    assert ColMatches(host, cand, upper);
    assert !ColMatches(host, cand, avg) by {
      TrimOfTrimmed(avg);
      assert |Lower(Trim(avg))| != |Lower("wip_size")|;
    }
    FirstMatchUnique(host, [upper, avg], [cand], 0, FindCol(host, [upper, avg], [cand]));
    assert Chosen(host, [avg, upper], [cand], 0, 0, 1);
    FirstMatchUnique(host, [avg, upper], [cand], 1, FindCol(host, [avg, upper], [cand]));
    FirstMatchUnique(host, [avg], [cand], -1, FindCol(host, [avg], [cand]));
  }

  /** An earlier candidate wins even when a later one matches an earlier column. */
  lemma CandidateOrderWins(host: Host, headers: seq<string>, a: Candidate, b: Candidate, i: nat)
    requires i < |headers| && ColMatches(host, a, headers[i])
    ensures 0 <= FindCol(host, headers, [a, b]) <= i
    ensures ColMatches(host, a, headers[FindCol(host, headers, [a, b])])
  {
    var r := FindCol(host, headers, [a, b]);
    assert !NoColumnMatches(host, headers, [a, b][0]);
    var k :| 0 <= k < 2 && Chosen(host, headers, [a, b], 0, k, r);
    assert k == 0;
  }
}
