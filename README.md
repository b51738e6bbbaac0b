# OHLCV market-data API: request time handling and query shaping

This Dafny project models how the read-only OHLCV (open/high/low/close/volume
candle) API handles a request before and after its database call. It covers
four parts of the API:

- **Time parser** (`TimeParser`, over the `PyDateTime` slice of Python's
  `datetime`). It accepts two disjoint grammars:
  - the ISO 8601 profile `YYYY-MM-DDTHH:MM:SS[.f{1,6}][Z|±HH:MM]`;
  - the legacy form `YYYYMMDD-HHmm`.

  It also models `parse_time_param` (the value each accepted string denotes
  and the `InvalidTimeFormatError` raised for every other string),
  `format_for_clickhouse` (shift to UTC, then `YYYY-MM-DD HH:MM:SS`) and
  `validate_time_range`, which compares instants.
- **Request models** (`RequestModels`): the pydantic models `OHLCVQueryParams`,
  `MultiSymbolQueryParams` and `LatestQueryParams`. This covers their field
  bounds and their two-stage time validator (pattern first, then value). It
  also covers the second range check of `OHLCVQueryParams`, which differs
  from the time parser's:
  - it compares wall clocks with the offset dropped;
  - it lets equal bounds through;
  - it stays silent when a bound does not parse.
- **The OHLCV router** (`OhlcvRouter`, with the records of `Responses`): the
  two handlers `get_ohlcv` and `get_latest`. The database call and the clock
  readings are inputs. The model covers:
  - the limit clamp `min(limit, MAX_LIMIT)`;
  - the default end;
  - the bound-parameter map;
  - the positional row-to-candle mapping;
  - the page metadata;
  - the latest-candle 404.
- **Exceptions** (`Exceptions`): the exception classes with their status and
  error codes, and the constructors that fill the `details` dict in place.
  The caller's dict is shared when it is non-empty. `to_dict` is modelled too.

`Wrappers` holds `Option` and `Result`. `Digits` holds decimal digits and
zero padding.

Python's regular expressions are modelled as exact-length predicates over
ASCII digits. `strptime` and `fromisoformat` are modelled as total functions
on the string shapes the patterns let through. A model that returns `None`
stands for the `ValueError`.

## Model

| member | source | states |
|---|---|---|
| TimeParser.IsoSplit | app/utils/time_parser.py:19-21 | The ISO pattern (a fraction and a zone, split anywhere) matches exactly the strings of the computed head/fraction/zone split. |
| TimeParser.GrammarsDisjoint | app/utils/time_parser.py:19-24 | No string matches both the ISO and the legacy pattern, so trying ISO first never hides a legacy string. |
| TimeParser.BranchCharacters | app/utils/time_parser.py:67-92 | The characters the parser branches on mean what the grammar says: a `.` only with a fraction, a trailing `Z` only for the `Z` zone, a `+` or a third `-` only for a numeric offset. |
| TimeParser.ZBase | app/utils/time_parser.py:67-75 | Cutting the `Z` leaves an ISO string with the same fraction and no zone. |
| TimeParser.IsoAttemptMeaning | app/utils/time_parser.py:62-92 | Every ISO branch as written (`strptime` after cutting `Z`, `fromisoformat` for offsets, `strptime` with or without `%f`) yields exactly the value the string denotes. |
| TimeParser.ParseTimeParam | app/utils/time_parser.py:27-129 | Succeeds exactly for strings that denote a real datetime, with that value. Every failure records the string as `provided`. Each grammar has its own message, expected text and details, and a string in neither grammar gets the supported-formats list. |
| TimeParser.ParseIso8601OrLegacy | app/utils/time_parser.py:216-228 | The alias returns what `parse_time_param` returns. |
| TimeParser.NeitherFormat | app/utils/time_parser.py:114-129 | A string in neither grammar is refused. Its details hold `provided` (only when non-empty), an `expected_format` starting with "ISO 8601", and the supported formats. |
| TimeParser.LegacyFields | app/utils/time_parser.py:103-112 | A legacy string parses exactly when its digits make a valid datetime. The value is naive, with those year, month, day, hour and minute and zero seconds; otherwise the legacy message is raised. |
| TimeParser.IsoFields | app/utils/time_parser.py:62-92 | An accepted ISO string yields its written fields, its fraction as microseconds and its zone: naive with no suffix, UTC for `Z`, the signed offset for `±HH:MM`. |
| TimeParser.FractionPadding | app/utils/time_parser.py:70-72 | A fraction of 1 to 6 digits becomes microseconds right-padded to six digits. |
| TimeParser.FractionExamples | app/utils/time_parser.py:70-72 | `.123` is 123000 microseconds and `.123456` is 123456. |
| TimeParser.FormatForClickhouse | app/utils/time_parser.py:132-161 | Fails, with OverflowError, exactly when an aware value's UTC instant leaves the representable range. Otherwise the result is 19 characters, and ClickHouse reads it back as the value's instant truncated to the second. |
| TimeParser.StrftimeReadsBack | app/utils/time_parser.py:161 | The `%Y-%m-%d %H:%M:%S` text reads back as the datetime without microseconds and zone. |
| TimeParser.UtcStaysPut | app/utils/time_parser.py:157-159 | Moving a UTC value to UTC leaves it unchanged. |
| TimeParser.IsoToClickhouse | app/utils/time_parser.py:62-161 | Parsing and then formatting a naive or `Z` ISO string gives its date and time with a space for `T` and no fraction. |
| TimeParser.LegacyToClickhouse | app/utils/time_parser.py:103-161 | Parsing and then formatting a legacy string gives `YYYY-MM-DD HH:MM:00` built from its digits. |
| TimeParser.ValidateTimeRange | app/utils/time_parser.py:164-213 | No end passes. An end not after the start raises the "must be after" message, with both values in `str(datetime)` form. |
| TimeParser.RangeMeaning | app/utils/time_parser.py:196-213 | The check passes exactly when the end is strictly later: in UTC for two aware values, on the wall clock for two naive ones. Equal instants are refused. A naive/aware mix raises TypeError, and a UTC conversion out of range raises OverflowError. |
| PyDateTime.Checked | app/utils/time_parser.py:72-105 | The datetime constructor accepts exactly a real calendar date, a valid time of day and an offset under a day. |
| PyDateTime.AsUtc | app/utils/time_parser.py:157-159 | `astimezone(timezone.utc)` keeps the instant on the UTC wall clock, and fails exactly when that instant falls outside years 1 to 9999. |
| PyDateTime.Strftime | app/utils/time_parser.py:161 | The formatted text has 19 characters. |
| PyDateTime.IsoFormat | app/core/exceptions.py:66 | `isoformat` is 19 characters, plus 7 with microseconds, plus 6 for an aware value. |
| PyDateTime.OffsetTextReadsBack | app/utils/time_parser.py:211 | The offset `str(datetime)` writes is a sign, two digits, `:` and two digits, and it reads back as the offset in minutes. |
| PyDateTime.IsoFormatReadsBack | app/core/exceptions.py:66 | The `isoformat` text starts with the zero-padded clock fields. With microseconds it goes on with `.` and six digits worth exactly them. An aware value ends in `±HH:MM` worth exactly its offset. A naive value without microseconds is the clock text alone. |
| PyDateTime.BeforeIsEarlier | app/models/request.py:173 | Python's `<` on naive datetimes is the order of wall-clock instants, and equal fields are equal instants. |
| RequestModels.LengthViolation | app/models/request.py:34-40 | `min_length`/`max_length` refuse exactly the lengths outside the bounds, naming the bound broken. |
| RequestModels.BoundViolation | app/models/request.py:54-65 | `ge`/`le` refuse exactly the values outside the bounds, naming the bound broken. |
| RequestModels.RaisedViolation | app/models/request.py:125-130 | A validator's ValueError becomes that field's error, with its message. |
| RequestModels.ParsesAsParser | app/models/request.py:100-123 | The validator's own parsing branches accept exactly what `parse_time_param` accepts. |
| RequestModels.TimeFormatCheck | app/models/request.py:67-130 | None passes. A string is kept verbatim exactly when the time parser accepts it. A string outside both patterns gets "Invalid time format: …", and one inside a pattern that does not parse gets "Invalid time value: …". |
| RequestModels.OhlcvTimeFormat | app/models/request.py:67-130 | The same as `TimeFormatCheck`, with the single-symbol model's message tails. |
| RequestModels.MultiTimeFormat | app/models/request.py:261-311 | The same as `TimeFormatCheck`, with the multi-symbol model's shorter message tails. |
| RequestModels.BeforeDot | app/models/request.py:151 | `split('.')[0]` is no longer than the string and holds no dot. |
| RequestModels.NaiveHead | app/models/request.py:155 | A zone-less ISO string cut at its first dot is its 19-character head, which `strptime` reads as the head's fields. |
| RequestModels.NaiveReading | app/models/request.py:154-155 | The range check reads a zone-less ISO string as its value without the fraction. |
| RequestModels.ZuluReading | app/models/request.py:149-151 | The range check reads a `Z` string as its value with zone and fraction dropped. |
| RequestModels.RangeReading | app/models/request.py:147-171 | Each bound is read as its parsed value with the zone dropped. The fraction is dropped too, except on the `fromisoformat` (offset) branch. |
| RequestModels.OhlcvTimeRange | app/models/request.py:132-182 | A missing or empty end passes unchanged. The only refusal is "End time cannot be before start time", exactly when both bounds read and the end's wall clock is earlier than the start's. |
| RequestModels.EqualBoundsPass | app/models/request.py:173-174 | Equal bounds pass the request check, while the time parser's check refuses them. |
| RequestModels.OffsetIgnored | app/models/request.py:152-153 | A start behind UTC (one without a fraction) and a `Z` end with the same written time pass the request check, although the time parser's check refuses them because the start is the later instant. |
| RequestModels.LaterOffsetEarlierInstant | app/utils/time_parser.py:203-211 | A start with a negative offset whose wall clock equals that of a UTC end is refused by the time parser's check. |
| RequestModels.FractionIgnored | app/models/request.py:149-155 | Two naive or `Z` bounds with the same head pass, whatever their fractions. |
| RequestModels.NewOhlcvQueryParams | app/models/request.py:23-182 | Accepted exactly when all five hold: the symbol has 1-50 characters; start parses; a given end parses and is not before start on the wall clock; the limit is in 1..10000; the offset is at least 0. An accepted record keeps the values verbatim. A refusal reports each failing field and only those. |
| RequestModels.EndValidators | app/models/request.py:67-182 | The end runs the format check, then the range check. It passes exactly when it is absent, or it parses and is not before the start. |
| RequestModels.FirstInvalidSymbol | app/models/request.py:254-258 | Finds the first symbol that is empty or longer than 50 characters, or none when all are valid. |
| RequestModels.SymbolsCheck | app/models/request.py:239-259 | The list is kept exactly when every symbol has 1-50 characters. Otherwise the message names the first invalid symbol. |
| RequestModels.ValidateSymbols | app/models/request.py:254-259 | The loop over the symbols returns what `SymbolsCheck` states. |
| RequestModels.FirstInvalidAt | app/models/request.py:254-258 | An invalid symbol preceded only by valid ones is the one the loop reports. |
| RequestModels.NewMultiSymbolQueryParams | app/models/request.py:197-311 | Accepted exactly when all hold: 1 to 100 symbols, each of 1-50 characters; both time strings parse; the limit and offset are in bounds. There is no range check. An empty list is TooShort(1) and more than 100 is TooLong(100). An admissible list with an invalid symbol carries the message for the first one. A refusal reports each failing field and only those. |
| RequestModels.ValidateSymbol | app/models/request.py:341-358 | Keeps exactly the symbols of 1-50 characters; otherwise it gives "Symbol must be 1-50 characters". |
| RequestModels.NewLatestQueryParams | app/models/request.py:333-358 | Accepted exactly for 1-50 characters. An empty symbol fails on `min_length`, a longer one on `max_length`, before the validator runs. |
| Exceptions.Lookup | app/core/exceptions.py:105-108 | `d.get(k)` finds a value exactly for a key the dict holds. |
| Exceptions.Assign | app/core/exceptions.py:152-155 | `d[k] = v` makes `k` map to `v` and changes no other key. |
| Exceptions.AssignKeys | app/core/exceptions.py:152-155 | An existing key keeps its place, a new key goes last, and keys stay distinct. |
| Exceptions.DetailMap.Empty | app/core/exceptions.py:52 | `{}` is a new empty dict. |
| Exceptions.DetailMap.Put | app/core/exceptions.py:154-155 | Assigning into the dict object updates it in place. |
| Exceptions.StatusByFamily | app/core/exceptions.py:27-190 | Every class is an API exception. A status is inherited: database errors 503, validation errors 422, missing resources 404, the base 500. |
| Exceptions.ErrorCodesDistinct | app/core/exceptions.py:27-190 | The ten classes carry ten distinct error codes. |
| Exceptions.QueryPreview | app/core/exceptions.py:108 | A query of at most 100 characters is its own preview. A longer one becomes its first 100 characters followed by `...`. |
| Exceptions.QueryDetails | app/core/exceptions.py:105-109 | A non-empty query adds `query_preview`. Otherwise the details stay as given, and every other key is unchanged. |
| Exceptions.TimeoutDetails | app/core/exceptions.py:123-126 | A non-zero timeout adds `timeout_seconds`. Otherwise the details stay as given. |
| Exceptions.TimeFormatDetails | app/core/exceptions.py:152-156 | `expected_format` is always set, and `provided` only when non-empty. Other keys are unchanged. |
| Exceptions.NamedDetails | app/core/exceptions.py:170-173 | A non-empty symbol or resource is recorded under its key. Otherwise the details stay as given. |
| Exceptions.ApiError.Base | app/core/exceptions.py:30-52 | A status or code that is given replaces the class default. A non-empty caller dict becomes the details object itself; otherwise a new empty dict is used. |
| Exceptions.ApiError.ConnectionError | app/core/exceptions.py:86-91 | 503 / DATABASE_CONNECTION_ERROR, with the caller's dict or a fresh one. |
| Exceptions.ApiError.QueryError | app/core/exceptions.py:99-109 | 503 / DATABASE_QUERY_ERROR, with the query preview written into the caller's non-empty dict in place. |
| Exceptions.ApiError.TimeoutError | app/core/exceptions.py:117-126 | 503 / DATABASE_TIMEOUT_ERROR, with `timeout_seconds` for a non-zero timeout. |
| Exceptions.ApiError.InvalidTimeFormatError | app/core/exceptions.py:145-156 | 422 / INVALID_TIME_FORMAT, with `provided` when given and `expected_format` always. |
| Exceptions.ApiError.InvalidSymbolError | app/core/exceptions.py:164-173 | 422 / INVALID_SYMBOL, with `symbol` when given. |
| Exceptions.ApiError.DataNotFoundError | app/core/exceptions.py:192-201 | 404 / DATA_NOT_FOUND, with `resource` when given. |
| Exceptions.ApiError.ToDict | app/core/exceptions.py:54-67 | `success` is false, and the error code, message and details are echoed. The timestamp is the `isoformat` of the clock reading. |
| OhlcvRouter.ClampLimit | app/routers/ohlcv.py:57 | The clamped limit never exceeds 10000, and a limit up to 10000 is unchanged. |
| OhlcvRouter.ClampedLimitChecked | app/routers/ohlcv.py:52-62 | After clamping, the limit check fails exactly for limits below 1, so 99999 is accepted. |
| OhlcvRouter.BoundParameters | app/routers/ohlcv.py:64-103 | The map holds the table name and the validated symbol, limit and offset unchanged, plus the parsed start. The end is the parsed end when given, else the clock reading. |
| OhlcvRouter.RowToCandle | app/routers/ohlcv.py:116-124 | Each row maps to a candle position by position, and the row can be read back. |
| OhlcvRouter.CandleRowCandle | app/routers/ohlcv.py:116-124 | A candle can be recovered from its row. |
| OhlcvRouter.RowsToCandles | app/routers/ohlcv.py:115-126 | There is one candle per row, in row order. |
| OhlcvRouter.CandlesToRows | app/routers/ohlcv.py:115-126 | There is one row per candle. |
| OhlcvRouter.RowsCandlesRows | app/routers/ohlcv.py:115-126 | The rows can be recovered from the candles, so nothing is lost or reordered. |
| OhlcvRouter.RowsToCandlesAppend | app/routers/ohlcv.py:115-126 | Mapping a concatenation maps each part in place. |
| OhlcvRouter.PageMetadata | app/routers/ohlcv.py:136-143 | `total_records` is the row count. `limit` and `offset` echo the request. `has_more` holds exactly when the count equals the limit. |
| OhlcvRouter.HasMoreOnFullPage | app/routers/ohlcv.py:140 | With at most `limit` rows, `has_more` is false exactly on a short page. |
| OhlcvRouter.LatestMetadata | app/routers/ohlcv.py:250-257 | The latest answer's metadata is 1 record, limit 1, offset 0, no more. |
| OhlcvRouter.StoreFailure | app/routers/ohlcv.py:105-110 | A database exception answers with its own status and `to_dict()`. Any other exception propagates. |
| OhlcvRouter.CaughtFamilies | app/routers/ohlcv.py:105 | The `except DatabaseException` clause catches exactly the database classes, all of them 503 by default. |
| OhlcvRouter.NotFoundDetail | app/routers/ohlcv.py:212-222 | The 404 body has `success` false, DATA_NOT_FOUND (the class code) and the symbol in the details. |
| OhlcvRouter.GetOhlcv | app/routers/ohlcv.py:29-144 | The handler's defaults are no end, limit 1000 and offset 0. A validation failure, with the limit clamped first, is a 422 carrying the errors. Otherwise the store is called once, with the placeholder query and the bound parameters. Rows become the candle response with its page metadata; a database exception becomes its own error answer. An answered request has a limit in 1..10000 and a record count equal to its data. |
| OhlcvRouter.GetLatest | app/routers/ohlcv.py:153-258 | A bad symbol is a 422. With no rows the answer is the 404 body. Otherwise it is exactly the first row, with the fixed metadata. Database exceptions are handled as in `GetOhlcv`. |

## Left out

- Database, network and concurrency: `ClickHouseManager`, `execute_query_async` and the driver are not modelled. The store is a function parameter, and its result rows or raised exception are inputs.
- Clocks: `datetime.utcnow()` and `time.time()` readings are handler inputs.
- GetOhlcv: `query_time_ms` is an input already rounded. `round(x, 2)` on floats is not modelled.
- Floating point: prices and volume are opaque `real` values passed through unchanged. `float()` rounding is not modelled.
- Framework plumbing, logging and configuration are not modelled: FastAPI's rendering of HTTPException, the logger calls, and environment-driven settings. `MAX_LIMIT` 10000 and the table name `ohlcv` are fixed constants.
- GetOhlcv: the 422 detail is the list of field errors. The text pydantic's `str(e)` renders from it is not modelled.
- GetLatest: the same applies to its 422 detail.
- ParseTimeParam: the `error` detail of a library ValueError is the abstract `LibraryMessage`. Python's wording is not modelled.
- The regular expressions match ASCII digits and end exactly at the string's end. Python's `\d` also matches other Unicode digits, and `$` also matches before a final newline.
- `strptime` is modelled only on strings of the shapes the patterns admit. Its leniency on other strings (one-digit fields, for instance) is outside the model.
- `fromisoformat` follows Python 3.11 and later: 1 to 6 fraction digits, and any offset under 24 hours. Earlier versions accept fewer forms.
- OhlcvTimeRange: requires each present bound to match one of the two patterns. pydantic calls it only after the format check accepted those bounds, and `strptime` on other strings is not modelled.
- RangeReading: has the same requirement, for the same reason.
- The router imports `LatestOHLCVResponse` and `LatestResponseMetadata`, which the response module does not define (app/routers/ohlcv.py:16). The latest answer is modelled with the fields used at app/routers/ohlcv.py:247-256, in the shape of `OHLCVResponse`.
- `response.py`'s default factories and JSON encoders are not modelled.
- The multi-symbol model has no handler in the router, so only its validation is modelled.
- Strftime: models `%Y` as a year zero-padded to four digits, as CPython releases that normalise `%Y` print it. On glibc, older releases print years 1-999 unpadded, and the text is then shorter than 19 characters. `StrftimeReadsBack`, `IsoToClickhouse`, `LegacyToClickhouse` and `FormatForClickhouse` assume the padded form.

## Behaviours worth knowing

- The ISO grammar is tried before the legacy one (app/utils/time_parser.py:62-103). No string is in both, so the order never matters (`GrammarsDisjoint`).
- A zone-less ISO string gives a naive value (app/utils/time_parser.py:85-92, `IsoFields`).
- A limit above 10000 is clamped to 10000 by the router before validation (app/routers/ohlcv.py:57, `ClampedLimitChecked`).
- A fraction is kept to the microsecond (app/utils/time_parser.py:70-72, `FractionPadding`).
- The router runs only the request models' range check (app/models/request.py:132-182). That check allows equal bounds and compares wall clocks. The stricter `validate_time_range` of the time parser is never called (`EqualBoundsPass`, `OffsetIgnored`).
