/** The two OHLCV endpoints with the database call and the clock readings
    taken as inputs: request validation, the bound-parameter map, the
    row-to-candle mapping, the page metadata and the error answers. */
module OhlcvRouter {
  import opened Wrappers
  import opened PyDateTime
  import opened TimeParser
  import opened RequestModels
  import opened Exceptions
  import opened Responses

  /** `settings.MAX_LIMIT` and `settings.CLICKHOUSE_TABLE` at their defaults. */
  const SettingsMaxLimit: int := 10000
  const Table: string := "ohlcv"

  // ---------------------------------------------------------------- limit

  /** `min(limit, settings.MAX_LIMIT)` */
  function ClampLimit(limit: int): (l: int)
    ensures l <= SettingsMaxLimit
    ensures limit <= SettingsMaxLimit ==> l == limit
    ensures limit > SettingsMaxLimit ==> l == SettingsMaxLimit
  {
    if limit <= SettingsMaxLimit then limit else SettingsMaxLimit
  }

  /** Clamping happens before validation, so no limit is refused for being
      too large: the limit check fails exactly for limits below one. */
  lemma ClampedLimitChecked(limit: int)
    ensures BoundViolation(ClampLimit(limit), MinLimit, Some(MaxLimit)).None? <==> limit >= MinLimit
    ensures limit < MinLimit ==> BoundViolation(ClampLimit(limit), MinLimit, Some(MaxLimit)) == Some(BelowMinimum(MinLimit))
  {
  }

  // ---------------------------------------------------------------- queries

  /** The two query texts, whitespace collapsed. They name their values only
      by placeholder, so no request value is ever spliced into them. */
  const OhlcvQuery: string :=
    "SELECT candle_time, symbol, open, high, low, close, volume FROM {table:Identifier} "
    + "WHERE symbol = {symbol:String} AND candle_time >= {start:DateTime64(3)} "
    + "AND candle_time <= {end:DateTime64(3)} ORDER BY candle_time ASC "
    + "LIMIT {limit:UInt32} OFFSET {offset:UInt32}"
  const LatestQuery: string :=
    "SELECT candle_time, symbol, open, high, low, close, volume FROM {table:Identifier} "
    + "WHERE symbol = {symbol:String} ORDER BY candle_time DESC LIMIT 1"

  /** The `parameters` dict of the range query. */
  datatype OhlcvParameters = OhlcvParameters(table: string, symbol: string, start: DateTime,
                                             end: DateTime, limit: int, offset: int)

  /** The `parameters` dict of the latest-candle query. */
  datatype LatestParameters = LatestParameters(table: string, symbol: string)

  /** One `execute_query_async(query, parameters=...)` call. */
  datatype StoreCall =
    | OhlcvCall(query: string, parameters: OhlcvParameters)
    | LatestCall(query: string, latestParameters: LatestParameters)

  /** Whether a time bound is given: Python truthiness of `params.end`. */
  predicate EndGiven(end: Option<string>) {
    end.Some? && end.value != []
  }

  /** The bounds parsed with `parse_time_param`, the end defaulting to the
      `datetime.utcnow()` reading `now`, and the validated symbol, limit and
      offset passed on unchanged with the configured table. */
  function BoundParameters(p: OhlcvQueryParams, now: DateTime): (b: OhlcvParameters)
    requires Valid(now) && now.zone == Naive
    requires Denotation(p.start).Some?
    requires EndGiven(p.end) ==> Denotation(p.end.value).Some?
    ensures b.table == Table && b.symbol == p.symbol && b.limit == p.limit && b.offset == p.offset
    ensures b.start == Denotation(p.start).value
    ensures b.end == if EndGiven(p.end) then Denotation(p.end.value).value else now
  {
    var startDt := ParseTimeParam(p.start).value;
    var endDt := if EndGiven(p.end) then ParseTimeParam(p.end.value).value else now;
    OhlcvParameters(Table, p.symbol, startDt, endDt, p.limit, p.offset)
  }

  // ---------------------------------------------------------------- rows

  /** A result row: candle_time, symbol, open, high, low, close, volume. */
  type Row = (DateTime, string, real, real, real, real, real)

  /** What the database call gives: the result rows, or the exception it
      raised. */
  datatype StoreResult = Rows(rows: seq<Row>) | Failed(error: ApiError)

  /** The positional mapping of one row to a candle. */
  function RowToCandle(row: Row): (c: OhlcvData)
    ensures CandleToRow(c) == row
  {
    OhlcvData(row.0, row.1, row.2, row.3, row.4, row.5, row.6)
  }

  /** A candle's fields in row order. */
  function CandleToRow(c: OhlcvData): Row {
    (c.candleTime, c.symbol, c.open, c.high, c.low, c.close, c.volume)
  }

  lemma CandleRowCandle(c: OhlcvData)
    ensures RowToCandle(CandleToRow(c)) == c
  {
  }

  /** The list comprehension over `result.result_rows`: one candle per row,
      in row order. */
  function RowsToCandles(rows: seq<Row>): (cs: seq<OhlcvData>)
    ensures |cs| == |rows|
    ensures forall i | 0 <= i < |rows| :: cs[i] == RowToCandle(rows[i])
  {
    if rows == [] then [] else [RowToCandle(rows[0])] + RowsToCandles(rows[1..])
  }

  function CandlesToRows(cs: seq<OhlcvData>): (rows: seq<Row>)
    ensures |rows| == |cs|
  {
    if cs == [] then [] else [CandleToRow(cs[0])] + CandlesToRows(cs[1..])
  }

  /** The rows can be read back from the candles: the mapping loses nothing
      and reorders nothing. */
  lemma {:induction false} RowsCandlesRows(rows: seq<Row>)
    ensures CandlesToRows(RowsToCandles(rows)) == rows
  {
    if rows != [] {
      var cs := RowsToCandles(rows);
      assert cs[1..] == RowsToCandles(rows[1..]);
      RowsCandlesRows(rows[1..]);
    }
  }

  /** Mapping a concatenation maps each part in place. */
  lemma {:induction false} RowsToCandlesAppend(a: seq<Row>, b: seq<Row>)
    ensures RowsToCandles(a + b) == RowsToCandles(a) + RowsToCandles(b)
  {
    if a != [] {
      assert (a + b)[1..] == a[1..] + b;
      RowsToCandlesAppend(a[1..], b);
    }
  }

  // ---------------------------------------------------------------- metadata

  /** `ResponseMetadata(total_records=len(data), limit=params.limit,
      offset=params.offset, has_more=len(data) == params.limit, ...)`. */
  function PageMetadata(count: nat, limit: int, offset: int, queryTimeMs: real,
                        timestamp: DateTime): (m: ResponseMetadata)
    ensures m.totalRecords == count && m.limit == limit && m.offset == offset
    ensures m.hasMore <==> count == limit
    ensures m.queryTimeMs == queryTimeMs && m.timestamp == timestamp
  {
    ResponseMetadata(count, limit, offset, count == limit, queryTimeMs, timestamp)
  }

  /** A store that honours `LIMIT` returns at most `limit` rows, so a page
      without `has_more` is a short page, and a `has_more` page is full. */
  lemma HasMoreOnFullPage(count: nat, limit: int, offset: int, queryTimeMs: real, timestamp: DateTime)
    requires count <= limit
    ensures !PageMetadata(count, limit, offset, queryTimeMs, timestamp).hasMore <==> count < limit
  {
  }

  /** The fixed metadata of the latest-candle answer. */
  function LatestMetadata(queryTimeMs: real, timestamp: DateTime): (m: ResponseMetadata)
    ensures m.totalRecords == 1 && m.limit == 1 && m.offset == 0 && !m.hasMore
    ensures m.queryTimeMs == queryTimeMs && m.timestamp == timestamp
  {
    ResponseMetadata(1, 1, 0, false, queryTimeMs, timestamp)
  }

  // ---------------------------------------------------------------- answers

  /** The `detail` of an HTTPException. */
  datatype ErrorDetail =
      /** `str(e)` of the ValidationError, as the errors it reports. */
    | OhlcvInvalid(errors: OhlcvErrors)
    | LatestInvalid(violation: Violation)
      /** `e.to_dict()` of a database exception. */
    | ErrorDict(body: ErrorBody)
      /** The literal dict of the latest-candle 404. */
    | NotFoundDict(success: bool, errorCode: string, message: string, details: Entries)

  /** How a handler ends: a response, an HTTPException, or an exception it
      does not catch. */
  datatype Outcome =
    | Ok(response: OhlcvResponse)
    | HttpError(status: int, detail: ErrorDetail)
    | Unhandled(error: ApiError)

  /** `except DatabaseException`: the classes under DatabaseException. */
  predicate IsDatabaseError(e: ApiError) {
    IsSubclass(e.cls, Database)
  }

  /** The answer to a database exception: its own status with its `to_dict()`
      stamped `now`; any other exception is not caught. */
  function StoreFailure(e: ApiError, now: DateTime): (r: Outcome)
    requires Valid(now) && now.zone == Naive
    reads e, e.details
    ensures IsDatabaseError(e) ==> r == HttpError(e.statusCode, ErrorDict(e.ToDict(now)))
    ensures !IsDatabaseError(e) ==> r == Unhandled(e)
  {
    if IsDatabaseError(e) then HttpError(e.statusCode, ErrorDict(e.ToDict(now))) else Unhandled(e)
  }

  /** The three connection-level errors are caught and answer 503 with their
      own code; validation and not-found errors are not caught. */
  lemma CaughtFamilies(c: ErrorClass)
    ensures IsSubclass(c, Database) <==> c in {Database, Connection, Query, Timeout}
    ensures IsSubclass(c, Database) ==> ClassStatus(c) == 503
  {
  }

  /** `No data found for symbol: <symbol>` with the symbol in the details. */
  function NotFoundDetail(symbol: string): (d: ErrorDetail)
    ensures d.NotFoundDict? && !d.success
    ensures d.errorCode == ClassErrorCode(DataNotFound)
    ensures d.details == [("symbol", Text(symbol))]
  {
    NotFoundDict(false, "DATA_NOT_FOUND", "No data found for symbol: " + symbol, [("symbol", Text(symbol))])
  }

  // ---------------------------------------------------------------- handlers

  /** `get_ohlcv`, with the handler's defaults for `end`, `limit` and
      `offset`. The readings of the clock are inputs: `now` for the default
      end, `queryTimeMs` for the rounded elapsed time, `stampNow` for the
      metadata timestamp and `errorNow` for an error body; the three
      `datetime.utcnow()` readings are valid naive values. */
  method GetOhlcv(symbol: string, start: string, store: StoreCall -> StoreResult, now: DateTime,
                  queryTimeMs: real, stampNow: DateTime, errorNow: DateTime,
                  end: Option<string> := None, limit: int := DefaultLimit, offset: int := DefaultOffset)
    returns (r: Outcome)
    requires Valid(now) && now.zone == Naive
    requires Valid(stampNow) && stampNow.zone == Naive
    requires Valid(errorNow) && errorNow.zone == Naive
    ensures var p := NewOhlcvQueryParams(symbol, start, end, ClampLimit(limit), offset);
            (p.Failure? ==> r == HttpError(422, OhlcvInvalid(p.error)))
            && (p.Success? ==>
                  var call := OhlcvCall(OhlcvQuery, BoundParameters(p.value, now));
                  match store(call)
                  case Rows(rows) =>
                    r == Ok(OhlcvResponse(true, RowsToCandles(rows),
                                          PageMetadata(|rows|, p.value.limit, p.value.offset,
                                                       queryTimeMs, stampNow)))
                  case Failed(e) => r == StoreFailure(e, errorNow))
    ensures r.Ok? ==> r.response.metadata.limit == ClampLimit(limit) && ClampLimit(limit) >= MinLimit
    ensures r.Ok? ==> r.response.metadata.totalRecords == |r.response.data|
                      && r.response.metadata.offset == offset
  {
    var p := NewOhlcvQueryParams(symbol, start, end, ClampLimit(limit), offset);
    if p.Failure? {
      return HttpError(422, OhlcvInvalid(p.error));
    }
    var params := p.value;
    assert params.limit == ClampLimit(limit) && params.offset == offset;
    var call := OhlcvCall(OhlcvQuery, BoundParameters(params, now));
    var result := store(call);
    match result
    case Failed(e) =>
      r := StoreFailure(e, errorNow);
    case Rows(rows) =>
      var data := RowsToCandles(rows);
      r := Ok(OhlcvResponse(true, data, PageMetadata(|data|, params.limit, params.offset,
                                                     queryTimeMs, stampNow)));
  }

  /** `get_latest`, with the same clock inputs as `GetOhlcv` (no end). */
  method GetLatest(symbol: string, store: StoreCall -> StoreResult, queryTimeMs: real,
                   stampNow: DateTime, errorNow: DateTime)
    returns (r: Outcome)
    requires Valid(stampNow) && stampNow.zone == Naive
    requires Valid(errorNow) && errorNow.zone == Naive
    ensures var p := NewLatestQueryParams(symbol);
            (p.Failure? ==> r == HttpError(422, LatestInvalid(p.error)))
            && (p.Success? ==>
                  match store(LatestCall(LatestQuery, LatestParameters(Table, symbol)))
                  case Rows(rows) =>
                    (rows == [] ==> r == HttpError(404, NotFoundDetail(symbol)))
                    && (rows != [] ==>
                          r == Ok(OhlcvResponse(true, [RowToCandle(rows[0])],
                                                LatestMetadata(queryTimeMs, stampNow))))
                  case Failed(e) => r == StoreFailure(e, errorNow))
    ensures r.Ok? ==> SymbolLengthOk(symbol) && |r.response.data| == 1
    ensures r.HttpError? && r.detail.NotFoundDict? ==> SymbolLengthOk(symbol) && r.status == 404
  {
    var p := NewLatestQueryParams(symbol);
    if p.Failure? {
      return HttpError(422, LatestInvalid(p.error));
    }
    var result := store(LatestCall(LatestQuery, LatestParameters(Table, p.value.symbol)));
    match result
    case Failed(e) =>
      r := StoreFailure(e, errorNow);
    case Rows(rows) =>
      if rows == [] {
        r := HttpError(404, NotFoundDetail(p.value.symbol));
      } else {
        r := Ok(OhlcvResponse(true, [RowToCandle(rows[0])], LatestMetadata(queryTimeMs, stampNow)));
      }
  }
}
