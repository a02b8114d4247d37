/**
 * The data service's module state and its streaming API: the listener
 * registry, the one timer slot shared by the workbook replay and the random
 * demo stream, the tick counters of their interval callbacks, and the
 * one-off series build.
 *
 * Each firing of an interval callback is an explicit call (`ExcelTick`,
 * `RandomTick`); the random draws of a firing are its parameters.
 */
module Stream {
  import opened JsValues
  import opened Workbook
  import opened Cells
  import opened Window
  import opened Series

  /** A subscriber callback; two callbacks are the same function exactly when they are equal. */
  datatype Callback = Callback(id: nat)

  /* ---------- the listener registry ---------- */

  /** `listeners.filter((f) => f !== cb)` */
  function Without(s: seq<Callback>, cb: Callback): (r: seq<Callback>)
    ensures |r| <= |s| && cb !in r
    decreases |s|
  {
    if s == [] then []
    else (if s[0] == cb then [] else [s[0]]) + Without(s[1..], cb)
  }

  /** Unsubscribing keeps exactly the other callbacks. */
  lemma {:induction false} WithoutMembers(s: seq<Callback>, cb: Callback, x: Callback)
    ensures x in Without(s, cb) <==> x in s && x != cb
    decreases |s|
  {
    if s != [] {
      WithoutMembers(s[1..], cb, x);
      assert s == [s[0]] + s[1..];
    }
  }

  /** Every other callback keeps its number of registrations; `cb` keeps none. */
  lemma {:induction false} WithoutCounts(s: seq<Callback>, cb: Callback, x: Callback)
    ensures multiset(Without(s, cb))[x] == if x == cb then 0 else multiset(s)[x]
    decreases |s|
  {
    if s != [] {
      WithoutCounts(s[1..], cb, x);
      assert s == [s[0]] + s[1..];
    }
  }

  /** The filter works piecewise, so the kept callbacks stay in their registration order. */
  lemma {:induction false} WithoutConcat(a: seq<Callback>, b: seq<Callback>, cb: Callback)
    ensures Without(a + b, cb) == Without(a, cb) + Without(b, cb)
    decreases |a|
  {
    if a != [] {
      WithoutConcat(a[1..], b, cb);
      assert (a + b)[1..] == a[1..] + b;
    } else {
      assert a + b == b;
    }
  }

  /** Removing a callback that is not registered changes nothing. */
  lemma {:induction false} WithoutAbsent(s: seq<Callback>, cb: Callback)
    requires cb !in s
    ensures Without(s, cb) == s
    decreases |s|
  {
    if s != [] {
      WithoutAbsent(s[1..], cb);
      assert s == [s[0]] + s[1..];
    }
  }

  /** Subscribing a new callback and calling its unsubscribe closure restores the registry. */
  lemma SubscribeThenUnsubscribe(s: seq<Callback>, cb: Callback)
    requires cb !in s
    ensures Without(s + [cb], cb) == s
  {
    WithoutConcat(s, [cb], cb);
    WithoutAbsent(s, cb);
    assert Without([cb], cb) == [];
  }

  /* ---------- payloads ---------- */

  /** `getWindow()` */
  datatype WindowView = WindowView(startDateUtc: Option<JsDate>, endDateUtc: Option<JsDate>, nDays: int, waferStarts: real)

  /**
   * What a tick hands to every listener. `simDate` is the UTC day of the tick;
   * the random time of day set on it is not modelled. `series` is the store
   * itself, not a copy.
   */
  datatype Payload = Payload(
    tick: nat,
    simDate: JsDate,
    series: Store,
    waferStarts: real,
    window: WindowView,
    summaryWaferStarts: Option<real>,
    random: bool)

  datatype Delivery = Delivery(listener: Callback, payload: Payload)

  /** `listeners.forEach((cb) => cb(payload))`: one delivery per registration, in order. */
  method Deliver(listeners: seq<Callback>, payload: Payload) returns (deliveries: seq<Delivery>)
    ensures |deliveries| == |listeners|
    ensures forall i :: 0 <= i < |listeners| ==> deliveries[i] == Delivery(listeners[i], payload)
  {
    deliveries := [];
    for i := 0 to |listeners|
      invariant |deliveries| == i
      invariant forall j :: 0 <= j < i ==> deliveries[j] == Delivery(listeners[j], payload)
    {
      deliveries := deliveries + [Delivery(listeners[i], payload)];
    }
  }

  /* ---------- tick counters ---------- */

  /** `tick++; if (tick >= nDays) tick = 0;` */
  function NextTick(tick: nat, n: nat): (t: nat)
    requires tick < n
    ensures t < n
  {
    if tick + 1 >= n then 0 else tick + 1
  }

  /** The tick after `k` firings of the workbook replay. */
  function TickAfter(k: nat, n: nat): (t: nat)
    requires n >= 1
    ensures t < n
  {
    if k == 0 then 0 else NextTick(TickAfter(k - 1, n), n)
  }

  /** The first `n` firings see ticks 0, 1, ..., n - 1, and the next one sees 0 again. */
  lemma {:induction false} TicksCountUp(k: nat, n: nat)
    requires n >= 1 && k <= n
    ensures TickAfter(k, n) == if k == n then 0 else k
  {
    if k > 0 {
      TicksCountUp(k - 1, n);
    }
  }

  /** The replay is periodic: `n` firings later the tick is the same. */
  lemma {:induction false} ReplayIsPeriodic(k: nat, n: nat)
    requires n >= 1
    ensures TickAfter(k + n, n) == TickAfter(k, n)
  {
    if k == 0 {
      TicksCountUp(n, n);
    } else {
      ReplayIsPeriodic(k - 1, n);
      assert TickAfter(k + n, n) == NextTick(TickAfter(k - 1 + n, n), n);
    }
  }

  /* ---------- random mode figures ---------- */

  /** `clamp(v, lo, hi) = Math.max(lo, Math.min(hi, v))` */
  function Clamp(v: real, lo: real, hi: real): (r: real)
    ensures lo <= hi ==> lo <= r <= hi
    ensures lo <= v <= hi ==> r == v
    ensures v < lo ==> r == lo
    ensures lo <= hi && v > hi ==> r == hi
  {
    var m := if hi < v then hi else v;
    if lo > m then lo else m
  }

  /** `mir = clamp(started ? exited / started : 1, 0, 2)` */
  function Mir(started: int, exited: int): (r: real)
    ensures 0.0 <= r <= 2.0
    ensures started == 0 ==> r == 1.0
    ensures started != 0 && 0.0 <= exited as real / started as real <= 2.0 ==> r == exited as real / started as real
  {
    Clamp(if started != 0 then exited as real / started as real else 1.0, 0.0, 2.0)
  }

  /** `+mir.toFixed(2)`, with the rounding done on exact values. */
  function Ratio2(r: real): real {
    RoundHalfUp(r * 100.0) as real / 100.0
  }

  /** The random draws of one firing: `rInt` draws as integers, `rBetween` share draws as reals. */
  datatype Draws = Draws(
    wipSize: int, wipMin: int, wipMax: int, wipAdd: int,
    toolTop: int, toolBot: int,
    idleShare: real, queueShare: real,
    started: int, exited: int,
    ordersDone: int, avgEta: int,
    hour: int, minute: int)

  /** The lots split: `Math.round(wipSize * share)` idle and queued, the rest in production. */
  datatype LotsSplit = LotsSplit(idle: int, queued: int, inProd: int)

  function SplitLots(wipSize: int, idleShare: real, queueShare: real): (s: LotsSplit)
    ensures s.inProd >= 0
    ensures s.idle + s.queued <= wipSize ==> s.idle + s.queued + s.inProd == wipSize
    ensures s.idle + s.queued > wipSize ==> s.inProd == 0
  {
    var idle := RoundHalfUp(wipSize as real * idleShare);
    var queued := RoundHalfUp(wipSize as real * queueShare);
    LotsSplit(idle, queued, if wipSize - idle - queued > 0 then wipSize - idle - queued else 0)
  }

  /**
   * Within the draw ranges (`rInt(40, 140)` lots, idle share in [0.15, 0.35],
   * queued share in [0.10, 0.25]) the split is exact and never clamps.
   */
  lemma SplitIsExactInDrawRanges(wipSize: int, idleShare: real, queueShare: real)
    requires 40 <= wipSize <= 140
    requires 0.15 <= idleShare <= 0.35 && 0.10 <= queueShare <= 0.25
    ensures var s := SplitLots(wipSize, idleShare, queueShare);
      s.idle >= 0 && s.queued >= 0 && s.inProd >= 1 && s.idle + s.queued + s.inProd == wipSize
  {
    var w := wipSize as real;
    RoundedSharesFit(w, w * idleShare, w * queueShare, idleShare, queueShare);
    var idle, queued := RoundHalfUp(w * idleShare), RoundHalfUp(w * queueShare);
    assert idle + queued < wipSize;
    assert SplitLots(wipSize, idleShare, queueShare) == LotsSplit(idle, queued, wipSize - idle - queued);
  }

  /** The rounded idle and queued counts leave at least one lot in production. */
  lemma RoundedSharesFit(w: real, a: real, b: real, idleShare: real, queueShare: real)
    requires 40.0 <= w && a == w * idleShare && b == w * queueShare
    requires 0.15 <= idleShare <= 0.35 && 0.10 <= queueShare <= 0.25
    ensures RoundHalfUp(a) >= 0 && RoundHalfUp(b) >= 0
    ensures (RoundHalfUp(a) + RoundHalfUp(b) + 1) as real <= w
  {
    ScaleBounds(w, idleShare, 0.15, 0.35);
    ScaleBounds(w, queueShare, 0.10, 0.25);
    assert w * 0.15 <= a <= w * 0.35;
    assert w * 0.10 <= b <= w * 0.25;
    assert 6.0 <= a && 4.0 <= b;
    var idle, queued := RoundHalfUp(a), RoundHalfUp(b);
    assert idle >= 6 && queued >= 4;
    assert (idle + queued) as real <= w * 0.6 + 1.0;
  }

  lemma ScaleBounds(w: real, x: real, lo: real, hi: real)
    requires w >= 0.0 && lo <= x <= hi
    ensures w * lo <= w * x <= w * hi
  {
    assert w * x - w * lo == w * (x - lo);
    assert w * hi - w * x == w * (hi - x);
  }

  /** The figures one random firing hands to the bindings. */
  datatype Figures = Figures(
    wipSize: int, wipMin: int, wipMax: int, wipAdd: int,
    toolTop: int, toolBot: int, activeTools: int,
    lots: LotsSplit,
    started: int, exited: int, ratio: real,
    ordersDone: int, avgEta: int)

  function RandomFigures(d: Draws): (f: Figures)
    ensures f.activeTools == d.toolTop + d.toolBot
    ensures f.lots.idle + f.lots.queued + f.lots.inProd >= f.wipSize
    ensures f.lots.idle + f.lots.queued <= f.wipSize ==> f.lots.idle + f.lots.queued + f.lots.inProd == f.wipSize
    ensures 0.0 <= f.ratio <= 2.0
  {
    var mir := Mir(d.started, d.exited);
    assert 0 <= RoundHalfUp(mir * 100.0) <= 200;
    Figures(d.wipSize, d.wipMin, d.wipMax, d.wipAdd, d.toolTop, d.toolBot, d.toolTop + d.toolBot,
            SplitLots(d.wipSize, d.idleShare, d.queueShare), d.started, d.exited, Ratio2(mir),
            d.ordersDone, d.avgEta)
  }

  /**
   * The base date of the random stream: the workbook start if known, else the
   * given start date, else the start of the current UTC day.
   */
  function BaseDate(startDateUtc: Option<TimeMs>, startDate: Option<JsDate>, nowMs: TimeMs): (d: JsDate)
    ensures startDateUtc.Some? ==> d == ValidDate(startDateUtc.value)
    ensures startDateUtc.None? && startDate.Some? ==> d == startDate.value
    ensures startDateUtc.None? && startDate.None? ==>
      d.ValidDate? && d.ms % DayMs == 0 && (!TwoDigitYear(nowMs) ==> d.ms <= nowMs < d.ms + DayMs)
  {
    if startDateUtc.Some? then ValidDate(startDateUtc.value)
    else if startDate.Some? then startDate.value
    else NormalizeToDayUtc(ValidDate(nowMs))
  }

  /** `new Date(base.getTime() + tick * 86400000)` */
  function DayOf(base: JsDate, tick: nat): (d: JsDate)
    ensures base.InvalidDate? ==> d.InvalidDate?
    ensures base.ValidDate? && base.ms + tick * DayMs <= MaxTimeMs ==> d == ValidDate(base.ms + tick * DayMs)
  {
    match base
    case InvalidDate => InvalidDate
    case ValidDate(ms) => MakeDate(ms + tick * DayMs)
  }

  /* ---------- the service ---------- */

  /** The interval timer slot: empty, or the callback of one of the two streams with its local `tick`. */
  datatype Timer =
    | NoTimer
    | ExcelTimer(tick: nat)
    | RandomTimer(tick: nat, baseDate: JsDate, maxTicks: int)

  /** Why `buildSeriesStore` threw. */
  datatype BuildError = LoadFailed(reason: string) | WindowFailed(error: WindowError)

  /** What `buildSeriesStore` returns or throws for a load outcome. */
  function BuildOutcome(host: Host, loaded: Result<Book, string>): (r: Result<SimWindow, BuildError>)
    ensures r.Ok? ==> loaded.Ok? && r.value.nDays >= 1
  {
    match loaded
    case Err(reason) => Err(LoadFailed(reason))
    case Ok(wb) =>
      match ParseWindow(host, wb)
      case Err(e) => Err(WindowFailed(e))
      case Ok(w) => Ok(w)
  }

  /** How `startExcelStream` ended. */
  datatype StartOutcome = AlreadyRunning | BuildFailed(error: BuildError) | NoData | Started

  /** Every key has an array of length `n`, and no two keys share one. */
  predicate StoreShape(store: Store, n: nat) {
    && (forall k :: k in store && store[k].Length == n)
    && (forall k1, k2 :: k1 != k2 ==> store[k1] != store[k2])
  }

  class DataService {
    var listeners: seq<Callback>
    var timer: Timer
    var startDateUtc: Option<TimeMs>
    var endDateUtc: Option<TimeMs>
    var nDays: nat
    var waferStarts: real
    var seriesStore: Option<Store>
    var seriesReady: bool
    var summaryWaferStarts: Option<real>
    /** How often the workbook replay has fired since it started. */
    ghost var fired: nat

    ghost predicate Valid()
      reads this
    {
      && (startDateUtc.Some? <==> endDateUtc.Some?)
      && (startDateUtc.Some? ==> nDays >= 1 && startDateUtc.value + (nDays - 1) * DayMs == endDateUtc.value)
      && (seriesStore.Some? ==> StoreShape(seriesStore.value, nDays))
      && (seriesStore.Some? ==> seriesReady)
      && (seriesReady ==> seriesStore.Some? && startDateUtc.Some? && summaryWaferStarts == Some(waferStarts))
      && (timer.ExcelTimer? ==> seriesReady && nDays >= 1 && timer.tick == TickAfter(fired, nDays))
      && (timer.RandomTimer? ==> timer.tick == 0 || timer.tick < timer.maxTicks)
    }

    /** The whole module state, for saying that an operation left it alone. */
    ghost function State(): (seq<Callback>, Timer, Option<TimeMs>, Option<TimeMs>, nat, real, Option<Store>, bool, Option<real>)
      reads this
    {
      (listeners, timer, startDateUtc, endDateUtc, nDays, waferStarts, seriesStore, seriesReady, summaryWaferStarts)
    }

    /** The state at module load. */
    constructor ()
      ensures Valid()
      ensures listeners == [] && timer == NoTimer && startDateUtc == None && endDateUtc == None
      ensures nDays == 0 && waferStarts == 0.0 && seriesStore == None && !seriesReady && summaryWaferStarts == None
    {
      listeners := [];
      timer := NoTimer;
      startDateUtc, endDateUtc := None, None;
      nDays, waferStarts := 0, 0.0;
      seriesStore, seriesReady := None, false;
      summaryWaferStarts := None;
      fired := 0;
    }

    /* ----- getters ----- */

    /** `getSeriesStore()`: the store, null until it has been built. */
    function GetSeriesStore(): (s: Option<Store>)
      reads this
      requires Valid()
      ensures seriesReady ==> s.Some? && StoreShape(s.value, nDays)
      ensures !seriesReady ==> s.None?
    {
      seriesStore
    }

    /** `getWindow()`: once built, an inclusive window of `nDays` whole days. */
    function GetWindow(): (w: WindowView)
      reads this
      requires Valid()
      ensures w.nDays == nDays && w.waferStarts == waferStarts
      ensures w.startDateUtc.Some? <==> w.endDateUtc.Some?
      ensures w.startDateUtc.Some? ==> (w.startDateUtc.value.ValidDate? && w.endDateUtc.value.ValidDate? &&
        w.nDays >= 1 && w.startDateUtc.value.ms + (w.nDays - 1) * DayMs == w.endDateUtc.value.ms)
    {
      WindowView(
        if startDateUtc.Some? then Some(ValidDate(startDateUtc.value)) else None,
        if endDateUtc.Some? then Some(ValidDate(endDateUtc.value)) else None,
        nDays, waferStarts)
    }

    /** `getSummary()`: a copy of the one-off figures. */
    function GetSummary(): (s: Option<real>)
      reads this
      requires Valid()
      ensures seriesReady ==> s == Some(waferStarts)
    {
      summaryWaferStarts
    }

    /* ----- registry ----- */

    /** `subscribe(cb)`: registers `cb` last. */
    method Subscribe(cb: Callback)
      requires Valid()
      modifies this`listeners
      ensures Valid()
      ensures listeners == old(listeners) + [cb]
    {
      listeners := listeners + [cb];
    }

    /** The closure `subscribe(cb)` returns: removes every registration of `cb`. */
    method Unsubscribe(cb: Callback)
      requires Valid()
      modifies this`listeners
      ensures Valid()
      ensures listeners == Without(old(listeners), cb)
    {
      listeners := Without(listeners, cb);
    }

    /* ----- building ----- */

    /**
     * `buildSeriesStore()`, given the outcome of fetching and parsing the
     * workbook. A failed load or a rejected window throws before any state
     * changes; otherwise the window, the summary and a freshly built store
     * replace the old ones.
     */
    method BuildSeriesStore(host: Host, loaded: Result<Book, string>) returns (r: Result<SimWindow, BuildError>)
      requires Valid() && timer == NoTimer
      modifies this`startDateUtc, this`endDateUtc, this`nDays, this`waferStarts,
        this`summaryWaferStarts, this`seriesStore, this`seriesReady
      ensures Valid()
      ensures r == BuildOutcome(host, loaded)
      ensures r.Err? ==> State() == old(State())
      ensures r.Ok? ==> var w := r.value;
        && startDateUtc == Some(w.startMs) && endDateUtc == Some(w.endMs)
        && nDays == w.nDays && waferStarts == w.waferStarts && summaryWaferStarts == Some(w.waferStarts)
        && seriesReady && seriesStore.Some?
        && forall k :: fresh(seriesStore.value[k]) && seriesStore.value[k][..] == BuiltSeries(host, loaded.value, k, nDays)
    {
      if loaded.Err? {
        return Err(LoadFailed(loaded.error));
      }
      var wb := loaded.value;
      var win := ParseSimulationWindow(host, wb);
      if win.Err? {
        return Err(WindowFailed(win.error));
      }
      var w := win.value;
      var store := BuildStore(host, wb, w.nDays);
      Install(w, store);
      r := Ok(w);
    }

    /** The assignments of `buildSeriesStore` once the window is known and the store built. */
    method Install(w: SimWindow, store: Store)
      requires Valid() && timer == NoTimer && StoreShape(store, w.nDays)
      requires w.nDays >= 1 && w.startMs + (w.nDays - 1) * DayMs == w.endMs
      modifies this`startDateUtc, this`endDateUtc, this`nDays, this`waferStarts,
        this`summaryWaferStarts, this`seriesStore, this`seriesReady
      ensures Valid()
      ensures startDateUtc == Some(w.startMs) && endDateUtc == Some(w.endMs)
      ensures nDays == w.nDays && waferStarts == w.waferStarts && summaryWaferStarts == Some(w.waferStarts)
      ensures seriesReady && seriesStore == Some(store)
    {
      startDateUtc := Some(w.startMs);
      endDateUtc := Some(w.endMs);
      nDays := w.nDays;
      waferStarts := w.waferStarts;
      summaryWaferStarts := Some(waferStarts);
      seriesStore := Some(store);
      seriesReady := true;
    }

    /* ----- the workbook replay ----- */

    /**
     * `startExcelStream()`: nothing if a timer is set; builds the store if it
     * is not ready; starts the replay at tick 0 unless there are no days.
     */
    method StartExcelStream(host: Host, loaded: Result<Book, string>) returns (outcome: StartOutcome)
      requires Valid()
      modifies this`startDateUtc, this`endDateUtc, this`nDays, this`waferStarts,
        this`summaryWaferStarts, this`seriesStore, this`seriesReady, this`timer, this`fired
      ensures Valid()
      ensures old(timer) != NoTimer ==> outcome == AlreadyRunning && State() == old(State())
      ensures old(timer) == NoTimer && old(seriesReady) ==> (
        && outcome == Started
        && startDateUtc == old(startDateUtc) && endDateUtc == old(endDateUtc) && nDays == old(nDays)
        && waferStarts == old(waferStarts) && summaryWaferStarts == old(summaryWaferStarts)
        && seriesStore == old(seriesStore))
      ensures old(timer) == NoTimer && !old(seriesReady) ==> match BuildOutcome(host, loaded)
        case Err(e) => outcome == BuildFailed(e) && State() == old(State())
        case Ok(w) => (
          && outcome == Started
          && startDateUtc == Some(w.startMs) && endDateUtc == Some(w.endMs)
          && nDays == w.nDays && waferStarts == w.waferStarts && summaryWaferStarts == Some(w.waferStarts)
          && seriesStore.Some?
          && forall k :: fresh(seriesStore.value[k]) && seriesStore.value[k][..] == BuiltSeries(host, loaded.value, k, nDays))
      ensures outcome == Started ==> timer == ExcelTimer(0) && fired == 0 && seriesReady && nDays >= 1
      ensures outcome != Started ==> timer == old(timer)
    {
      if timer != NoTimer {
        return AlreadyRunning;
      }
      if !seriesReady {
        var built := BuildSeriesStore(host, loaded);
        if built.Err? {
          return BuildFailed(built.error);
        }
      }
      if seriesStore.None? || nDays == 0 {
        return NoData;
      }
      assert TickAfter(0, nDays) == 0;
      timer := ExcelTimer(0);
      fired := 0;
      outcome := Started;
    }

    /** The payload of the replay at tick `t`. */
    function ExcelPayload(t: nat): (p: Payload)
      reads this
      requires Valid() && seriesReady && t < nDays
      ensures p.tick == t && !p.random
      ensures p.simDate == ValidDate(startDateUtc.value + t * DayMs)
      ensures startDateUtc.value <= p.simDate.ms <= endDateUtc.value
      ensures p.series == seriesStore.value && p.waferStarts == waferStarts
    {
      Payload(t, ValidDate(startDateUtc.value + t * DayMs), seriesStore.value, waferStarts,
              GetWindow(), GetSummary(), false)
    }

    /**
     * One firing of the replay's interval callback: every listener, in order,
     * gets the payload of the current tick, and the tick moves on, wrapping
     * at `nDays`.
     */
    method ExcelTick() returns (deliveries: seq<Delivery>)
      requires Valid() && timer.ExcelTimer?
      modifies this`timer, this`fired
      ensures Valid()
      ensures |deliveries| == |listeners|
      ensures forall i :: 0 <= i < |listeners| ==> deliveries[i] == Delivery(listeners[i], ExcelPayload(old(timer.tick)))
      ensures fired == old(fired) + 1
      ensures timer == ExcelTimer(NextTick(old(timer.tick), nDays)) && timer.tick == TickAfter(fired, nDays)
    {
      var tick := timer.tick;
      var payload := ExcelPayload(tick);
      deliveries := Deliver(listeners, payload);
      tick := tick + 1;
      if tick >= nDays {
        tick := 0;
      }
      timer := ExcelTimer(tick);
      fired := fired + 1;
    }

    /* ----- the random demo stream ----- */

    /**
     * `startRandomBindingsStream(intervalMs, bindings, { maxTicks, startDate })`:
     * nothing if a timer is set; otherwise starts at tick 0 from the base date.
     */
    method StartRandomBindingsStream(maxTicks: int, startDate: Option<JsDate>, nowMs: TimeMs) returns (started: bool)
      requires Valid()
      modifies this`timer
      ensures Valid()
      ensures started <==> old(timer) == NoTimer
      ensures started ==> timer == RandomTimer(0, BaseDate(startDateUtc, startDate, nowMs), maxTicks)
      ensures !started ==> timer == old(timer)
    {
      if timer != NoTimer {
        return false;
      }
      timer := RandomTimer(0, BaseDate(startDateUtc, startDate, nowMs), maxTicks);
      started := true;
    }

    /**
     * One firing of the random stream's interval callback: the figures for the
     * bindings (when bindings were given), the payload to every listener, and
     * the timer released once `tick` reaches `maxTicks`.
     */
    method RandomTick(draws: Draws, hasBindings: bool) returns (figures: Option<Figures>, deliveries: seq<Delivery>)
      requires Valid() && timer.RandomTimer?
      modifies this`timer
      ensures Valid()
      ensures figures == if hasBindings then Some(RandomFigures(draws)) else None
      ensures var t := old(timer);
        && |deliveries| == |listeners|
        && forall i :: 0 <= i < |listeners| ==> deliveries[i] == Delivery(listeners[i],
             Payload(t.tick, DayOf(t.baseDate, t.tick), map[], 0.0,
                     WindowView(Some(t.baseDate), None, t.maxTicks, 0.0), Some(0.0), true))
      ensures old(timer.tick) + 1 >= old(timer.maxTicks) ==> timer == NoTimer
      ensures old(timer.tick) + 1 < old(timer.maxTicks) ==> timer == old(timer).(tick := old(timer.tick) + 1)
    {
      var tick := timer.tick;
      var baseDate := timer.baseDate;
      var maxTicks := timer.maxTicks;
      var simDate := DayOf(baseDate, tick);
      figures := if hasBindings then Some(RandomFigures(draws)) else None;
      var payload := Payload(tick, simDate, map[], 0.0, WindowView(Some(baseDate), None, maxTicks, 0.0), Some(0.0), true);
      deliveries := Deliver(listeners, payload);
      tick := tick + 1;
      if tick >= maxTicks {
        timer := NoTimer;
      } else {
        timer := RandomTimer(tick, baseDate, maxTicks);
      }
    }

    /* ----- stopping ----- */

    /** `stopStream()`: no timer and no listeners afterwards, whatever the state before. */
    method StopStream()
      requires Valid()
      modifies this`timer, this`listeners
      ensures Valid()
      ensures timer == NoTimer && listeners == []
    {
      timer := NoTimer;
      listeners := [];
    }
  }

  /** Stopping twice is the same as stopping once, and neither touches the window or the store. */
  method StopTwice(s: DataService)
    requires s.Valid()
    modifies s
    ensures s.Valid() && s.timer == NoTimer && s.listeners == []
    ensures s.seriesStore == old(s.seriesStore) && s.nDays == old(s.nDays) && s.startDateUtc == old(s.startDateUtc)
  {
    s.StopStream();
    s.StopStream();
  }
}
