/**
 * The JavaScript values that the workbook reader hands to the data service,
 * and the handful of JavaScript built-ins the service applies to them
 * (truthiness, `String(v)`, `trim`, `toLowerCase`, `Math.round`, `new Date(ms)`).
 *
 * Built-ins whose behaviour depends on a full number or date grammar
 * (`Number(string)`, `new Date(string)`, number and date `toString`,
 * `RegExp.prototype.test`) are not interpreted: they are the fields of a
 * `Host` value that every operation takes as a parameter.
 */
module JsValues {

  datatype Option<+T> = None | Some(value: T) {
    function GetOr(default: T): T {
      match this
      case Some(v) => v
      case None => default
    }
  }

  /** A value or the error that stopped its computation (a thrown exception in the source). */
  datatype Result<+T, +E> = Ok(value: T) | Err(error: E)

  /** One day in milliseconds. */
  const DayMs: int := 86_400_000

  /** The largest magnitude of a valid JavaScript time value (milliseconds from the Unix epoch). */
  const MaxTimeMs: int := 8_640_000_000_000_000

  type TimeMs = ms: int | -MaxTimeMs <= ms <= MaxTimeMs

  /** A JavaScript `Date` object: a valid time value, or an "Invalid Date" (time value NaN). */
  datatype JsDate = ValidDate(ms: TimeMs) | InvalidDate

  /**
   * A cell value as the workbook reader produces it. `Null` stands for both
   * `null` and `undefined`; `Num` is a finite number; `Obj` is a rich value
   * (formula, hyperlink, rich text, error) with its `result`, `text` and
   * `value` properties, each `Null` when absent.
   */
  datatype Value =
    | Null
    | Bool(b: bool)
    | Num(x: real)
    | Str(s: string)
    | DateV(d: JsDate)
    | Obj(result: Value, text: Value, value: Value)

  /** The host built-ins the model leaves uninterpreted. */
  datatype Host = Host(
    numberToString: real -> string,     // String(x) for a finite number
    dateToString: JsDate -> string,     // String(d) for a Date object
    parseNumber: string -> Option<real>, // Number(s) when it is finite, None when NaN or infinite
    parseDate: string -> JsDate,        // new Date(s)
    test: (string, string) -> bool      // new RegExp(source).test(text)
  )

  /** JavaScript truthiness; NaN is not a `Num`, so only 0 is a falsy number. */
  predicate Truthy(v: Value) {
    match v
    case Null => false
    case Bool(b) => b
    case Num(x) => x != 0.0
    case Str(s) => s != ""
    case DateV(_) => true
    case Obj(_, _, _) => true
  }

  /** `v || ""` */
  function OrEmpty(v: Value): (r: Value)
    ensures Truthy(v) ==> r == v
    ensures !Truthy(v) ==> r == Str("")
  {
    if Truthy(v) then v else Str("")
  }

  /** `String(v)` */
  function ToStr(host: Host, v: Value): string {
    match v
    case Null => "null"
    case Bool(b) => if b then "true" else "false"
    case Num(x) => host.numberToString(x)
    case Str(s) => s
    case DateV(d) => host.dateToString(d)
    case Obj(_, _, _) => "[object Object]"
  }

  /** `Math.round(x)`: the nearest integer, halves rounded up. */
  function RoundHalfUp(x: real): (n: int)
    ensures x - 0.5 < n as real <= x + 0.5
  {
    (x + 0.5).Floor
  }

  lemma RoundOfInteger(k: int)
    ensures RoundHalfUp(k as real) == k
  {
    assert k as real <= k as real + 0.5 < (k + 1) as real;
  }

  /** `new Date(ms)` for an integral `ms`: out of range gives an Invalid Date. */
  function MakeDate(ms: int): (d: JsDate)
    ensures d.ValidDate? <==> -MaxTimeMs <= ms <= MaxTimeMs
    ensures d.ValidDate? ==> d.ms == ms
  {
    if -MaxTimeMs <= ms <= MaxTimeMs then ValidDate(ms) else InvalidDate
  }

  /* ---------- whitespace and trim ---------- */

  /** The ECMAScript WhiteSpace and LineTerminator characters that `trim` removes. */
  predicate IsWs(c: char) {
    c == '\t' || c == '\n' || c == '\U{000B}' || c == '\U{000C}' || c == '\r' || c == ' '
    || c == '\U{00A0}' || c == '\U{1680}' || ('\U{2000}' <= c <= '\U{200A}')
    || c == '\U{2028}' || c == '\U{2029}' || c == '\U{202F}' || c == '\U{205F}'
    || c == '\U{3000}' || c == '\U{FEFF}'
  }

  predicate AllWs(s: string) {
    forall i :: 0 <= i < |s| ==> IsWs(s[i])
  }

  /** No whitespace at either end. */
  predicate IsTrimmed(s: string) {
    s == [] || (!IsWs(s[0]) && !IsWs(s[|s| - 1]))
  }

  /** `s` without its leading whitespace. */
  function TrimStart(s: string): string
    decreases |s|
  {
    if s != [] && IsWs(s[0]) then TrimStart(s[1..]) else s
  }

  /** `s` without its trailing whitespace. */
  function TrimEnd(s: string): string
    decreases |s|
  {
    if s != [] && IsWs(s[|s| - 1]) then TrimEnd(s[..|s| - 1]) else s
  }

  /** `String.prototype.trim` */
  function Trim(s: string): string {
    TrimEnd(TrimStart(s))
  }

  /** TrimStart drops a whitespace prefix and stops at the first other character. */
  lemma {:induction false} TrimStartSpec(s: string)
    ensures |TrimStart(s)| <= |s| && TrimStart(s) == s[|s| - |TrimStart(s)|..]
    ensures TrimStart(s) == [] || !IsWs(TrimStart(s)[0])
    ensures TrimStart(s) == [] <==> AllWs(s)
    decreases |s|
  {
    if s != [] && IsWs(s[0]) {
      TrimStartSpec(s[1..]);
      assert forall i :: 1 <= i < |s| ==> s[i] == s[1..][i - 1];
    }
  }

  /** TrimEnd drops a whitespace suffix and stops at the last other character. */
  lemma {:induction false} TrimEndSpec(s: string)
    ensures |TrimEnd(s)| <= |s| && TrimEnd(s) == s[..|TrimEnd(s)|]
    ensures TrimEnd(s) == [] || !IsWs(TrimEnd(s)[|TrimEnd(s)| - 1])
    ensures AllWs(s[|TrimEnd(s)|..])
    ensures TrimEnd(s) == [] <==> AllWs(s)
    decreases |s|
  {
    if s != [] && IsWs(s[|s| - 1]) {
      var r := TrimEnd(s[..|s| - 1]);
      TrimEndSpec(s[..|s| - 1]);
      assert s[|r|..] == s[..|s| - 1][|r|..] + [s[|s| - 1]];
      assert forall i :: 0 <= i < |s| - 1 ==> s[i] == s[..|s| - 1][i];
    }
  }

  /** Trimming leaves no whitespace at either end, and is empty exactly for blank text. */
  lemma TrimProperties(s: string)
    ensures IsTrimmed(Trim(s))
    ensures Trim(s) == [] <==> AllWs(s)
  {
    TrimStartSpec(s);
    TrimEndSpec(TrimStart(s));
    var a := TrimStart(s);
    var t := TrimEnd(a);
    if t != [] {
      assert t[0] == a[0];
    }
  }

  lemma TrimOfTrimmed(s: string)
    requires IsTrimmed(s)
    ensures Trim(s) == s
  {
  }

  /* ---------- lower case ---------- */

  /** `toLowerCase` on one character; only the ASCII letters are mapped. */
  function LowerChar(c: char): (d: char)
    ensures 'A' <= c <= 'Z' ==> d as int == c as int + 32
    ensures !('A' <= c <= 'Z') ==> d == c
  {
    if 'A' <= c <= 'Z' then (c as int + 32) as char else c
  }

  function Lower(s: string): (r: string)
    ensures |r| == |s|
    ensures forall i :: 0 <= i < |s| ==> r[i] == LowerChar(s[i])
  {
    seq(|s|, i requires 0 <= i < |s| => LowerChar(s[i]))
  }

  /* ---------- decimal rendering of array positions ---------- */

  function DigitChar(d: nat): (c: char)
    requires d < 10
    ensures '0' <= c <= '9'
  {
    ('0' as int + d) as char
  }

  /** The decimal digits of `n`, as in the template literal `${n}`. */
  function NatToString(n: nat): (s: string)
    ensures |s| >= 1
    ensures forall i :: 0 <= i < |s| ==> '0' <= s[i] <= '9'
  {
    if n < 10 then [DigitChar(n)] else NatToString(n / 10) + [DigitChar(n % 10)]
  }

  /** The placeholder name `col_${i}` for a blank header at position `i`. */
  function PlaceholderName(i: nat): (s: string)
    ensures IsTrimmed(s) && s != []
  {
    "col_" + NatToString(i)
  }
}
