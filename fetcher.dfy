/**
 * The upstream requests: how a window becomes an API query, how a response
 * becomes canonical rows, and what a (possibly chunked) request returns,
 * which upstream calls it makes and how many clock readings it takes.
 *
 * The HTTP call is an oracle `api(query, t)`: the answer the upstream gives
 * to `query` when asked at clock reading `t`.
 */
module Fetcher {
  import opened Wrappers
  import opened Text
  import opened Tables
  import opened Records
  import opened Chunking

  /** A failed upstream call: the transport raised, or the body did not have the expected shape. */
  datatype ApiError = Unavailable | Malformed

  /** What a request raises. */
  datatype FetchError =
    | UnknownRegion(region: string)    // KeyError in region_dno / region_map
    | UnknownVoltage(voltage: string)  // KeyError in voltage_level_enums
    | Upstream(cause: ApiError)
    | NoRows                           // an empty data list: the column selection raises KeyError

  /**
   * The outcome of one request: the rows or the error it raised, the number
   * of clock readings it took and the windows for which it called the upstream.
   */
  datatype FetchRun<B> = FetchRun(result: Result<seq<Versioned<B>>, FetchError>, ticks: nat, calls: seq<Window>)

  /** `a` followed by `b`, stopping at the first error. */
  function Then<B>(a: FetchRun<B>, b: FetchRun<B>): FetchRun<B>
  {
    if a.result.Err? then a
    else FetchRun(if b.result.Ok? then Ok(a.result.value + b.result.value) else b.result,
                  a.ticks + b.ticks, a.calls + b.calls)
  }

  /** Sequencing runs is associative. */
  lemma ThenAssoc<B>(a: FetchRun<B>, b: FetchRun<B>, c: FetchRun<B>)
    ensures Then(a, Then(b, c)) == Then(Then(a, b), c)
  {
    if a.result.Ok? && b.result.Ok? && c.result.Ok? {
      assert a.result.value + (b.result.value + c.result.value) == (a.result.value + b.result.value) + c.result.value;
    }
  }

  /** The run of nothing: no rows, no clock reading, no call. */
  function Nothing<B>(): FetchRun<B> { FetchRun(Ok([]), 0, []) }

  /**
   * The chunk loop: one request per window, in order, the first starting at
   * clock reading `t`; the rows are concatenated and the first error ends the loop.
   */
  function ChunkedRun<B>(base: (Window, int) -> FetchRun<B>, ws: seq<Window>, t: int): FetchRun<B>
    decreases |ws|
  {
    if ws == [] then Nothing()
    else Then(base(ws[0], t), ChunkedRun(base, ws[1..], t + base(ws[0], t).ticks))
  }

  /** Concatenation of row tables. */
  function Flatten<B>(parts: seq<seq<Versioned<B>>>): seq<Versioned<B>>
    decreases |parts|
  {
    if parts == [] then [] else parts[0] + Flatten(parts[1..])
  }

  /** The rows a run returned, or none. */
  function RowsOrNone<B>(r: FetchRun<B>): seq<Versioned<B>>
  {
    if r.result.Ok? then r.result.value else []
  }

  /**
   * Reference for the chunk loop: each window fetched on its own, window k
   * at clock reading t + k, and the answers' rows listed in window order.
   */
  function Separately<B>(base: (Window, int) -> FetchRun<B>, ws: seq<Window>, t: int): (parts: seq<seq<Versioned<B>>>)
    ensures |parts| == |ws|
    decreases |ws|
  {
    if ws == [] then [] else [RowsOrNone(base(ws[0], t))] + Separately(base, ws[1..], t + 1)
  }

  /** Window k of the reference is the request for window k made at reading t + k. */
  lemma {:induction false} SeparatelyAt<B>(base: (Window, int) -> FetchRun<B>, ws: seq<Window>, t: int, k: int)
    requires 0 <= k < |ws|
    ensures Separately(base, ws, t)[k] == RowsOrNone(base(ws[k], t + k))
    decreases k
  {
    if k > 0 {
      SeparatelyAt(base, ws[1..], t + 1, k - 1);
    }
  }

  /** Each request reads the clock once and calls the upstream for its own window. */
  ghost predicate SingleCall<B>(base: (Window, int) -> FetchRun<B>)
  {
    forall w: Window, t: int :: base(w, t).ticks == 1 && base(w, t).calls == [w]
  }

  /**
   * When every chunk request is a single call, a successful loop calls the
   * upstream for exactly the chunk windows, reads the clock once per chunk,
   * every chunk succeeds, and the rows are those of the chunks fetched
   * separately, in order.
   */
  lemma {:induction false} ChunkedRunOk<B>(base: (Window, int) -> FetchRun<B>, ws: seq<Window>, t: int)
    requires SingleCall(base)
    requires ChunkedRun(base, ws, t).result.Ok?
    ensures ChunkedRun(base, ws, t).calls == ws
    ensures ChunkedRun(base, ws, t).ticks == |ws|
    ensures ChunkedRun(base, ws, t).result.value == Flatten(Separately(base, ws, t))
    ensures forall k :: 0 <= k < |ws| ==> base(ws[k], t + k).result.Ok?
    decreases |ws|
  {
    if ws != [] {
      var first := base(ws[0], t);
      assert first.ticks == 1 && first.calls == [ws[0]];
      assert first.result.Ok?;
      ChunkedRunOk(base, ws[1..], t + 1);
      assert ws == [ws[0]] + ws[1..];
      forall k | 0 <= k < |ws| ensures base(ws[k], t + k).result.Ok? {
        if k > 0 {
          assert ws[k] == ws[1..][k - 1];
          assert t + k == (t + 1) + (k - 1);
        }
      }
    }
  }

  /** Appending the calls of two runs in turn is appending their concatenation. */
  lemma AppendAssoc<T>(a: seq<T>, b: seq<T>, c: seq<T>)
    ensures a + (b + c) == a + b + c
  {
  }

  /** The run of nothing is a unit of sequencing. */
  lemma ThenNothing<B>(a: FetchRun<B>)
    ensures Then(Nothing(), a) == a
    ensures a.result.Ok? ==> Then(a, Nothing()) == a
  {
    if a.result.Ok? {
      assert [] + a.result.value == a.result.value;
      assert a.result.value + [] == a.result.value;
    }
  }

  /**
   * One turn of the chunk loop: the run still to come from `lo` is the
   * request for the first chunk followed by the run from that chunk's end.
   */
  lemma ChunkStep<B>(base: (Window, int) -> FetchRun<B>, done: FetchRun<B>, lo: int, hi: int, step: int, t: int)
    requires lo < hi && step > 0
    ensures var next := Min(lo + step, hi);
      var first := base(Window(lo, next), t);
      Then(done, ChunkedRun(base, Chunks(lo, hi, step), t))
        == Then(Then(done, first), ChunkedRun(base, Chunks(next, hi, step), t + first.ticks))
  {
    var next := Min(lo + step, hi);
    var ws := Chunks(lo, hi, step);
    assert ws == [Window(lo, next)] + Chunks(next, hi, step);
    assert ws[1..] == Chunks(next, hi, step);
    var first := base(Window(lo, next), t);
    ThenAssoc(done, first, ChunkedRun(base, Chunks(next, hi, step), t + first.ticks));
  }

  /** A failed chunk ends the loop: what follows it is dropped. */
  lemma ChunkFails<B>(done: FetchRun<B>, first: FetchRun<B>, rest: FetchRun<B>)
    requires first.result.Err?
    ensures Then(Then(done, first), rest) == Then(done, first)
  {
  }

  /** A window of at most 31 days is fetched by the single-call branch, which reads the clock once. */
  lemma PriceFetchShort(api: PriceApi, region: string, voltage: string, w: Window, t: int)
    requires w.Span() <= PriceMaxSpan
    ensures PriceFetch(api, region, voltage, w, t) == PriceBaseFn(api, region, voltage)(w, t)
    ensures PriceFetch(api, region, voltage, w, t).ticks == 1
  {
  }

  /**
   * One turn of the price chunk loop, stated in terms of the nested call
   * `price_api_request` makes for the chunk: the run still to come from
   * `lo` is that call followed by the run from the chunk's end, and a
   * failed call ends the run.
   */
  lemma PriceChunkTurn(api: PriceApi, region: string, voltage: string, done: FetchRun<PriceBody>, lo: int, hi: int, t: int)
    requires lo < hi
    ensures var next := Min(lo + PriceChunk, hi);
      var first := PriceFetch(api, region, voltage, Window(lo, next), t);
      var rest := ChunkedRun(PriceBaseFn(api, region, voltage), Chunks(next, hi, PriceChunk), t + 1);
      && first.ticks == 1
      && Then(done, ChunkedRun(PriceBaseFn(api, region, voltage), Chunks(lo, hi, PriceChunk), t)) == Then(Then(done, first), rest)
      && (first.result.Err? ==> Then(Then(done, first), rest) == Then(done, first))
  {
    var next := Min(lo + PriceChunk, hi);
    PriceFetchShort(api, region, voltage, Window(lo, next), t);
    ChunkStep(PriceBaseFn(api, region, voltage), done, lo, hi, PriceChunk, t);
  }

  /** A window of at most 14 days is fetched by the single-call branch, which reads the clock once. */
  lemma IntensityFetchShort(api: IntensityApi, region: string, postcode: string, w: Window, t: int)
    requires w.Span() <= IntensityMaxSpan
    ensures IntensityFetch(api, region, postcode, w, t) == IntensityBaseFn(api, region, postcode)(w, t)
    ensures IntensityFetch(api, region, postcode, w, t).ticks == 1
  {
  }

  /**
   * One turn of the intensity chunk loop, stated in terms of the nested call
   * `intensity_api_request` makes for the chunk.
   */
  lemma IntensityChunkTurn(api: IntensityApi, region: string, postcode: string, done: FetchRun<IntensityBody>, lo: int, hi: int, t: int)
    requires lo < hi
    ensures var next := Min(lo + IntensityChunk, hi);
      var first := IntensityFetch(api, region, postcode, Window(lo, next), t);
      var rest := ChunkedRun(IntensityBaseFn(api, region, postcode), Chunks(next, hi, IntensityChunk), t + 1);
      && first.ticks == 1
      && Then(done, ChunkedRun(IntensityBaseFn(api, region, postcode), Chunks(lo, hi, IntensityChunk), t)) == Then(Then(done, first), rest)
      && (first.result.Err? ==> Then(Then(done, first), rest) == Then(done, first))
  {
    var next := Min(lo + IntensityChunk, hi);
    IntensityFetchShort(api, region, postcode, Window(lo, next), t);
    ChunkStep(IntensityBaseFn(api, region, postcode), done, lo, hi, IntensityChunk, t);
  }

  /** A run with one more clock reading (the outer request ticks the clock before it splits). */
  function Tick<B>(r: FetchRun<B>): FetchRun<B>
  {
    FetchRun(r.result, r.ticks + 1, r.calls)
  }

  // ---------------------------------------------------------------------
  // Price requests
  // ---------------------------------------------------------------------

  /**
   * The price API's query `dno=&voltage=&start=&end=`, the dates as UTC day
   * numbers; `end` is the day after the window's end.
   */
  datatype PriceQuery = PriceQuery(dno: int, voltage: string, startDay: int, endDay: int)

  /** One entry of the response's data list: "Overall" and "Timestamp" (as Unix seconds). */
  datatype PricePoint = PricePoint(overall: Metric, timestamp: int)

  datatype PriceResponse = PriceResponse(dnoRegion: string, voltageLevel: string, data: seq<PricePoint>)

  type PriceApi = (PriceQuery, int) -> Result<PriceResponse, ApiError>

  /** The UTC calendar day of a timestamp (what `strftime("%d-%m-%Y")` keeps). */
  function DayOf(t: int): int { t / Day }

  function PriceQueryFor(dno: int, code: string, w: Window): PriceQuery
  {
    PriceQuery(dno, code, DayOf(w.start), DayOf(w.end + Day))
  }

  /** One normalised price row: a 30-minute slot, keyed by region, voltage level and start. */
  function PriceRow(region: string, voltage: string, resp: PriceResponse, p: PricePoint, fetchId: int): PriceRecord
  {
    var reg := OrNA(region);
    Versioned(CompositeId(reg, resp.voltageLevel, p.timestamp), fetchId,
              PriceBody(reg, resp.voltageLevel, p.timestamp, p.timestamp + SlotSeconds,
                        OrNA(voltage), resp.dnoRegion, p.overall))
  }

  /** All rows of one response, in response order, sharing the fetch id. */
  function PriceRows(region: string, voltage: string, resp: PriceResponse, fetchId: int): (rows: seq<PriceRecord>)
    ensures |rows| == |resp.data|
    ensures forall i :: 0 <= i < |rows| ==>
      rows[i].body.from == resp.data[i].timestamp && rows[i].body.penniesPerKwh == resp.data[i].overall
  {
    seq(|resp.data|, i requires 0 <= i < |resp.data| => PriceRow(region, voltage, resp, resp.data[i], fetchId))
  }

  /** What the single-call branch of the price request returns, or the error it raises. */
  function PriceOutcome(api: PriceApi, region: string, voltage: string, w: Window, t: int): (r: Result<seq<PriceRecord>, FetchError>)
    ensures r.Ok? ==> region in RegionDnoTable && voltage in VoltageLevelTable && |r.value| > 0
  {
    match RegionDno(region)
    case None => Err(UnknownRegion(region))
    case Some(dno) =>
      match VoltageCode(voltage)
      case None => Err(UnknownVoltage(voltage))
      case Some(code) =>
        match api(PriceQueryFor(dno, code, w), t)
        case Err(e) => Err(Upstream(e))
        case Ok(resp) =>
          if |resp.data| == 0 then Err(NoRows)
          else Ok(PriceRows(region, voltage, resp, t))
  }

  /** The single-call branch reaches the upstream API unless a table lookup fails first. */
  function PriceCalls(region: string, voltage: string, w: Window): seq<Window>
  {
    if RegionDno(region).Some? && VoltageCode(voltage).Some? then [w] else []
  }

  /** The single-call branch of the price request, reading the clock as `t`. */
  function PriceBase(api: PriceApi, region: string, voltage: string, w: Window, t: int): FetchRun<PriceBody>
  {
    FetchRun(PriceOutcome(api, region, voltage, w, t), 1, PriceCalls(region, voltage, w))
  }

  function PriceBaseFn(api: PriceApi, region: string, voltage: string): (Window, int) -> FetchRun<PriceBody>
  {
    (w: Window, t: int) => PriceBase(api, region, voltage, w, t)
  }

  /** A price request for `w` whose clock reading is `t`: one call, or one per 30-day chunk. */
  function PriceFetch(api: PriceApi, region: string, voltage: string, w: Window, t: int): FetchRun<PriceBody>
  {
    if w.Span() > PriceMaxSpan then
      Tick(ChunkedRun(PriceBaseFn(api, region, voltage), Chunks(w.start, w.end, PriceChunk), t + 1))
    else PriceBase(api, region, voltage, w, t)
  }

  /** Every price row spans one 30-minute slot, and its key is made of its own region, voltage level and start. */
  lemma PriceRowsAreSlots(region: string, voltage: string, resp: PriceResponse, fetchId: int)
    ensures forall r :: r in PriceRows(region, voltage, resp, fetchId) ==>
      && r.body.to == r.body.from + SlotSeconds
      && r.created == fetchId
      && r.body.region == OrNA(region) && r.body.voltage == OrNA(voltage)
      && r.id == CompositeId(r.body.region, r.body.voltageLevel, r.body.from)
  {
  }

  /** Rows of one response with distinct timestamps get distinct keys. */
  lemma PriceRowsDistinctIds(region: string, voltage: string, resp: PriceResponse, fetchId: int, i: int, j: int)
    requires 0 <= i < |resp.data| && 0 <= j < |resp.data|
    requires resp.data[i].timestamp != resp.data[j].timestamp
    ensures PriceRows(region, voltage, resp, fetchId)[i].id != PriceRows(region, voltage, resp, fetchId)[j].id
  {
    var reg := OrNA(region);
    CompositeIdDistinguishesTimes(reg, resp.voltageLevel, reg, resp.voltageLevel, resp.data[i].timestamp, resp.data[j].timestamp);
  }

  /** A successful single-call request keeps the caller's region and voltage: "NA" never appears there. */
  lemma PriceBaseKeepsNames(api: PriceApi, region: string, voltage: string, w: Window, t: int)
    requires PriceBase(api, region, voltage, w, t).result.Ok?
    ensures forall r :: r in PriceBase(api, region, voltage, w, t).result.value ==>
      r.body.region == region && r.body.voltage == voltage && r.created == t
  {
    assert region in RegionDnoTable && region != "";
    assert voltage in VoltageLevelTable && voltage != "";
  }

  /** With a known region and voltage, every single-call request calls the upstream once, for its window. */
  lemma PriceBaseSingleCall(api: PriceApi, region: string, voltage: string)
    requires region in RegionDnoTable && voltage in VoltageLevelTable
    ensures SingleCall(PriceBaseFn(api, region, voltage))
  {
  }

  /** A window of at most 31 days with a known region and voltage makes exactly one upstream call, for that window. */
  lemma PriceFetchOneCall(api: PriceApi, region: string, voltage: string, w: Window, t: int)
    requires w.Span() <= PriceMaxSpan
    requires region in RegionDnoTable && voltage in VoltageLevelTable
    ensures PriceFetch(api, region, voltage, w, t).calls == [w]
    ensures PriceFetch(api, region, voltage, w, t).ticks == 1
  {
  }

  /**
   * A successful request for more than 31 days calls the upstream once per
   * chunk: the calls tile the window, each is at most 30 days (so it is never
   * split again), the clock is read once more than there are calls, and the
   * rows are the chunks' rows in order, chunk k stamped with reading t + 1 + k.
   */
  lemma PriceFetchChunked(api: PriceApi, region: string, voltage: string, w: Window, t: int)
    requires w.Span() > PriceMaxSpan
    requires PriceFetch(api, region, voltage, w, t).result.Ok?
    ensures var run := PriceFetch(api, region, voltage, w, t);
      && run.calls == Chunks(w.start, w.end, PriceChunk)
      && Tiles(run.calls, w.start, w.end, PriceChunk)
      && run.ticks == |run.calls| + 1
      && run.result.value == Flatten(Separately(PriceBaseFn(api, region, voltage), run.calls, t + 1))
  {
    var ws := Chunks(w.start, w.end, PriceChunk);
    var base := PriceBaseFn(api, region, voltage);
    ChunksTile(w.start, w.end, PriceChunk);
    assert ChunkedRun(base, ws, t + 1).result.Ok?;
    assert base(ws[0], t + 1).result.Ok?;
    assert PriceOutcome(api, region, voltage, ws[0], t + 1).Ok?;
    PriceBaseSingleCall(api, region, voltage);
    ChunkedRunOk(base, ws, t + 1);
  }

  // ---------------------------------------------------------------------
  // Intensity requests
  // ---------------------------------------------------------------------

  /** The three request routes: by postcode, by region id, or national. */
  datatype IntensityTarget = ByPostcode(postcode: string) | ByRegionId(regionId: int) | National

  /** `/…intensity/{from}/{to}/…` with the times at minute precision. */
  datatype IntensityQuery = IntensityQuery(fromMinute: int, toMinute: int, target: IntensityTarget)

  /**
   * One entry of the response's data list, flattened with `sep="_"`; an
   * absent forecast or actual is `Missing`, an absent index or mix is `None`.
   */
  datatype IntensityPoint = IntensityPoint(
    from: int, to: int,
    forecast: Metric, actual: Metric,
    index: Option<string>,
    mix: Option<seq<FuelShare>>)

  /** The body shapes of the three routes. */
  datatype IntensityResponse =
    | PostcodeData(regionid: string, shortname: string, postcode: string, data: seq<IntensityPoint>)
    | RegionData(regionid: string, dnoregion: string, shortname: string, data: seq<IntensityPoint>)
    | NationalData(data: seq<IntensityPoint>)

  type IntensityApi = (IntensityQuery, int) -> Result<IntensityResponse, ApiError>

  /** The UTC minute of a timestamp (what `strftime("%Y-%m-%dT%H:%MZ")` keeps). */
  function MinuteOf(t: int): int { t / 60 }

  /** Route choice: a postcode if given, else a known region, else national. */
  function IntensityTargetFor(region: string, postcode: string): Result<IntensityTarget, FetchError>
  {
    if postcode != "" then Ok(ByPostcode(postcode))
    else if region != "" then
      match RegionId(region)
      case None => Err(UnknownRegion(region))
      case Some(id) => Ok(ByRegionId(id))
    else Ok(National)
  }

  /** The body shape matches the route that was asked. */
  predicate ShapeMatches(target: IntensityTarget, resp: IntensityResponse)
  {
    match target
    case ByPostcode(_) => resp.PostcodeData?
    case ByRegionId(_) => resp.RegionData?
    case National => resp.NationalData?
  }

  /** One normalised intensity row; columns that the route does not give are "NA". */
  function IntensityRow(region: string, postcode: string, resp: IntensityResponse, p: IntensityPoint, fetchId: int): IntensityRecord
  {
    var reg := OrNA(region);
    var pc := OrNA(postcode);
    var regionid := if resp.NationalData? then NotAvailable else resp.regionid;
    var dnoregion := if resp.RegionData? then resp.dnoregion else NotAvailable;
    var shortname := if resp.NationalData? then NotAvailable else resp.shortname;
    var sourcePostcode := if resp.PostcodeData? then resp.postcode else NotAvailable;
    Versioned(CompositeId(reg, pc, p.from), fetchId,
              IntensityBody(p.from, p.to, reg, pc, "CarbonIntensity", regionid, dnoregion, shortname, sourcePostcode,
                            p.forecast, if p.index.Some? then p.index.value else NotAvailable, p.actual,
                            if p.mix.Some? then p.mix.value else []))
  }

  function IntensityRows(region: string, postcode: string, resp: IntensityResponse, fetchId: int): (rows: seq<IntensityRecord>)
    ensures |rows| == |resp.data|
    ensures forall i :: 0 <= i < |rows| ==>
      && rows[i].body.from == resp.data[i].from && rows[i].body.to == resp.data[i].to
      && rows[i].body.intensityForecast == resp.data[i].forecast && rows[i].body.intensityActual == resp.data[i].actual
      && rows[i].body.intensityIndex == (if resp.data[i].index.Some? then resp.data[i].index.value else NotAvailable)
      && rows[i].body.generationmix == (if resp.data[i].mix.Some? then resp.data[i].mix.value else [])
  {
    seq(|resp.data|, i requires 0 <= i < |resp.data| => IntensityRow(region, postcode, resp, resp.data[i], fetchId))
  }

  /** What the single-call branch of the intensity request returns, or the error it raises. */
  function IntensityOutcome(api: IntensityApi, region: string, postcode: string, w: Window, t: int): (r: Result<seq<IntensityRecord>, FetchError>)
    ensures r.Ok? ==> IntensityTargetFor(region, postcode).Ok? && |r.value| > 0
  {
    match IntensityTargetFor(region, postcode)
    case Err(e) => Err(e)
    case Ok(target) =>
      match api(IntensityQuery(MinuteOf(w.start), MinuteOf(w.end), target), t)
      case Err(e) => Err(Upstream(e))
      case Ok(resp) =>
        if !ShapeMatches(target, resp) then Err(Upstream(Malformed))
        else if |resp.data| == 0 then Err(NoRows)
        else Ok(IntensityRows(region, postcode, resp, t))
  }

  /** The single-call branch reaches the upstream API unless the region lookup fails first. */
  function IntensityCalls(region: string, postcode: string, w: Window): seq<Window>
  {
    if IntensityTargetFor(region, postcode).Ok? then [w] else []
  }

  /** The single-call branch of the intensity request, reading the clock as `t`. */
  function IntensityBase(api: IntensityApi, region: string, postcode: string, w: Window, t: int): FetchRun<IntensityBody>
  {
    FetchRun(IntensityOutcome(api, region, postcode, w, t), 1, IntensityCalls(region, postcode, w))
  }

  function IntensityBaseFn(api: IntensityApi, region: string, postcode: string): (Window, int) -> FetchRun<IntensityBody>
  {
    (w: Window, t: int) => IntensityBase(api, region, postcode, w, t)
  }

  /** An intensity request for `w` whose clock reading is `t`: one call, or one per 13-day chunk. */
  function IntensityFetch(api: IntensityApi, region: string, postcode: string, w: Window, t: int): FetchRun<IntensityBody>
  {
    if w.Span() > IntensityMaxSpan then
      Tick(ChunkedRun(IntensityBaseFn(api, region, postcode), Chunks(w.start, w.end, IntensityChunk), t + 1))
    else IntensityBase(api, region, postcode, w, t)
  }

  /**
   * Every intensity row carries the request's region and postcode ("NA" when
   * not given), the fetch id, the source name, and a key made of those and its start.
   */
  lemma IntensityRowsShape(region: string, postcode: string, resp: IntensityResponse, fetchId: int)
    ensures forall r :: r in IntensityRows(region, postcode, resp, fetchId) ==>
      && r.created == fetchId
      && r.body.region == OrNA(region) && r.body.postcode == OrNA(postcode)
      && r.body.source == "CarbonIntensity"
      && r.id == CompositeId(r.body.region, r.body.postcode, r.body.from)
      && (resp.NationalData? ==> r.body.regionid == NotAvailable && r.body.shortname == NotAvailable)
      && (!resp.RegionData? ==> r.body.dnoregion == NotAvailable)
      && (!resp.PostcodeData? ==> r.body.sourcePostcode == NotAvailable)
  {
  }

  /** Rows of one response with distinct start times get distinct keys. */
  lemma IntensityRowsDistinctIds(region: string, postcode: string, resp: IntensityResponse, fetchId: int, i: int, j: int)
    requires 0 <= i < |resp.data| && 0 <= j < |resp.data|
    requires resp.data[i].from != resp.data[j].from
    ensures IntensityRows(region, postcode, resp, fetchId)[i].id != IntensityRows(region, postcode, resp, fetchId)[j].id
  {
    CompositeIdDistinguishesTimes(OrNA(region), OrNA(postcode), OrNA(region), OrNA(postcode), resp.data[i].from, resp.data[j].from);
  }

  /** With a route that can be chosen, every single-call request calls the upstream once, for its window. */
  lemma IntensityBaseSingleCall(api: IntensityApi, region: string, postcode: string)
    requires IntensityTargetFor(region, postcode).Ok?
    ensures SingleCall(IntensityBaseFn(api, region, postcode))
  {
  }

  /** A window of at most 14 days whose route can be chosen makes exactly one upstream call, for that window. */
  lemma IntensityFetchOneCall(api: IntensityApi, region: string, postcode: string, w: Window, t: int)
    requires w.Span() <= IntensityMaxSpan
    requires IntensityTargetFor(region, postcode).Ok?
    ensures IntensityFetch(api, region, postcode, w, t).calls == [w]
    ensures IntensityFetch(api, region, postcode, w, t).ticks == 1
  {
  }

  /**
   * A successful request for more than 14 days calls the upstream once per
   * 13-day chunk, the calls tiling the window, and returns the chunks' rows
   * in order, chunk k stamped with clock reading t + 1 + k.
   */
  lemma IntensityFetchChunked(api: IntensityApi, region: string, postcode: string, w: Window, t: int)
    requires w.Span() > IntensityMaxSpan
    requires IntensityFetch(api, region, postcode, w, t).result.Ok?
    ensures var run := IntensityFetch(api, region, postcode, w, t);
      && run.calls == Chunks(w.start, w.end, IntensityChunk)
      && Tiles(run.calls, w.start, w.end, IntensityChunk)
      && run.ticks == |run.calls| + 1
      && run.result.value == Flatten(Separately(IntensityBaseFn(api, region, postcode), run.calls, t + 1))
  {
    var ws := Chunks(w.start, w.end, IntensityChunk);
    var base := IntensityBaseFn(api, region, postcode);
    ChunksTile(w.start, w.end, IntensityChunk);
    assert ChunkedRun(base, ws, t + 1).result.Ok?;
    assert base(ws[0], t + 1).result.Ok?;
    assert IntensityOutcome(api, region, postcode, ws[0], t + 1).Ok?;
    IntensityBaseSingleCall(api, region, postcode);
    ChunkedRunOk(base, ws, t + 1);
  }
}
