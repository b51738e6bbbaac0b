/** The request parameter models: the field bounds, the two-stage check of
    each time string with its two messages, the wall-clock range check of the
    single-symbol request, the per-symbol check of the multi-symbol request
    and the latest-candle symbol rule. Each model is a function from the
    given parameters to the stored record or the list of field errors
    pydantic collects. */
module RequestModels {
  import opened Wrappers
  import opened Digits
  import opened PyDateTime
  import opened TimeParser

  const MaxSymbolLength: nat := 50
  const MaxSymbols: nat := 100
  const MinLimit: int := 1
  const MaxLimit: int := 10000
  const DefaultLimit: int := 1000
  const DefaultOffset: int := 0

  // ---------------------------------------------------------------- field errors

  /** Why a field was refused: one of its declared constraints, or the
      ValueError of one of its validators. */
  datatype Violation =
    | TooShort(minLength: nat)
    | TooLong(maxLength: nat)
    | BelowMinimum(ge: int)
    | AboveMaximum(le: int)
    | Raised(message: string)

  /** `min_length`/`max_length` on a value of length `n`. */
  function LengthViolation(n: nat, lo: nat, hi: nat): (v: Option<Violation>)
    ensures v.None? <==> lo <= n <= hi
    ensures v == Some(TooShort(lo)) <==> n < lo
    ensures v == Some(TooLong(hi)) <==> lo <= n && hi < n
  {
    if n < lo then Some(TooShort(lo))
    else if n > hi then Some(TooLong(hi))
    else None
  }

  /** `ge`, and `le` when there is one, on an integer. */
  function BoundViolation(x: int, lo: int, hi: Option<int>): (v: Option<Violation>)
    ensures v.None? <==> lo <= x && (hi.Some? ==> x <= hi.value)
    ensures v == Some(BelowMinimum(lo)) <==> x < lo
    ensures hi.Some? ==> (v == Some(AboveMaximum(hi.value)) <==> lo <= x && hi.value < x)
  {
    if x < lo then Some(BelowMinimum(lo))
    else if hi.Some? && x > hi.value then Some(AboveMaximum(hi.value))
    else None
  }

  /** The error a validator's ValueError becomes. */
  function RaisedViolation<T>(check: Result<T, string>): (v: Option<Violation>)
    ensures v.None? <==> check.Success?
    ensures check.Failure? ==> v == Some(Raised(check.error))
  {
    if check.Failure? then Some(Raised(check.error)) else None
  }

  predicate SymbolLengthOk(s: string) {
    1 <= |s| <= MaxSymbolLength
  }

  // ---------------------------------------------------------------- validate_time_format

  const SingleFormatHint: string :=
    ". Expected ISO 8601 format (e.g., 2025-07-01T00:00:00Z, 2025-07-01T00:00:00+03:00) or legacy format (YYYYMMDD-HHmm)"
  const SingleValueHint: string :=
    ". Could not parse as datetime. Use ISO 8601 format (e.g., 2025-07-01T00:00:00Z) or legacy format (YYYYMMDD-HHmm)"
  const MultiFormatHint: string :=
    ". Expected ISO 8601 format (e.g., 2025-07-01T00:00:00Z) or legacy format (YYYYMMDD-HHmm)"
  const MultiValueHint: string :=
    ". Use ISO 8601 format (e.g., 2025-07-01T00:00:00Z) or legacy format (YYYYMMDD-HHmm)"

  /** The `try` block of `validate_time_format`: the parser's own branches,
      keeping only whether the library call raises. */
  predicate ParsesAsWritten(v: string)
    requires MatchesIso(v) || MatchesLegacy(v)
  {
    IsoSplit(v);
    if MatchesIso(v) then IsoAttempt(v).Some? else StrptimeLegacy(v).Some?
  }

  /** The validator's branches accept exactly what the time parser accepts. */
  lemma ParsesAsParser(v: string)
    requires MatchesIso(v) || MatchesLegacy(v)
    ensures ParsesAsWritten(v) <==> Denotation(v).Some?
  {
    IsoSplit(v);
    GrammarsDisjoint(v);
    if MatchesIso(v) {
      IsoAttemptMeaning(v);
    }
  }

  /** `validate_time_format(v)` with the two message tails of its class: None
      passes, a string in neither grammar is a format error, a string that
      does not parse is a value error, any other string is kept as it is.
      The strings it keeps are exactly the ones the time parser accepts. */
  function TimeFormatCheck(v: Option<string>, formatHint: string, valueHint: string)
    : (r: Result<Option<string>, string>)
    ensures r.Success? <==> v.None? || Denotation(v.value).Some?
    ensures r.Success? ==> r.value == v
    ensures r.Failure? && !MatchesIso(v.value) && !MatchesLegacy(v.value) ==>
              r.error == "Invalid time format: " + v.value + formatHint
    ensures r.Failure? && (MatchesIso(v.value) || MatchesLegacy(v.value)) ==>
              r.error == "Invalid time value: " + v.value + valueHint
  {
    if v.None? then Success(v)
    else
      var s := v.value;
      if !MatchesIso(s) && !MatchesLegacy(s) then Failure("Invalid time format: " + s + formatHint)
      else
        ParsesAsParser(s);
        if ParsesAsWritten(s) then Success(v) else Failure("Invalid time value: " + s + valueHint)
  }

  /** `OHLCVQueryParams.validate_time_format`. */
  function OhlcvTimeFormat(v: Option<string>): (r: Result<Option<string>, string>)
    ensures r.Success? <==> v.None? || Denotation(v.value).Some?
    ensures r.Success? ==> r.value == v
    ensures r.Failure? && !MatchesIso(v.value) && !MatchesLegacy(v.value) ==>
              r.error == "Invalid time format: " + v.value + SingleFormatHint
    ensures r.Failure? && (MatchesIso(v.value) || MatchesLegacy(v.value)) ==>
              r.error == "Invalid time value: " + v.value + SingleValueHint
  {
    TimeFormatCheck(v, SingleFormatHint, SingleValueHint)
  }

  /** `MultiSymbolQueryParams.validate_time_format`: the same check with
      shorter messages. */
  function MultiTimeFormat(v: Option<string>): (r: Result<Option<string>, string>)
    ensures r.Success? <==> v.None? || Denotation(v.value).Some?
    ensures r.Success? ==> r.value == v
    ensures r.Failure? && !MatchesIso(v.value) && !MatchesLegacy(v.value) ==>
              r.error == "Invalid time format: " + v.value + MultiFormatHint
    ensures r.Failure? && (MatchesIso(v.value) || MatchesLegacy(v.value)) ==>
              r.error == "Invalid time value: " + v.value + MultiValueHint
  {
    TimeFormatCheck(v, MultiFormatHint, MultiValueHint)
  }

  // ---------------------------------------------------------------- validate_time_range

  /** `s.split('.')[0]`: the text before the first dot. */
  function BeforeDot(s: string): (r: string)
    ensures |r| <= |s| && '.' !in r
  {
    if s == [] || s[0] == '.' then [] else [s[0]] + BeforeDot(s[1..])
  }

  /** When the first dot is at `k`, or there is none and `k` is the length,
      the text before it is the first `k` characters. */
  lemma {:induction false} BeforeDotAt(s: string, k: nat)
    requires k <= |s| && '.' !in s[..k] && (k < |s| ==> s[k] == '.')
    ensures BeforeDot(s) == s[..k]
  {
    if k > 0 {
      assert s[0] == s[..k][0];
      assert s[1..][..k - 1] == s[..k][1..];
      BeforeDotAt(s[1..], k - 1);
      assert s[..k] == [s[0]] + s[..k][1..];
    }
  }

  /** An ISO string without a zone: its text before the first dot is its
      head, which `strptime(..., "%Y-%m-%dT%H:%M:%S")` reads as the head's
      fields. */
  lemma NaiveHead(t: string)
    requires IsoShape(t) && ZoneText(t) == []
    ensures BeforeDot(t) == t[..19] && IsoShape(t[..19])
    ensures StrptimeSeconds(t[..19]) == Checked(HeadDateTime(t, 0, Naive))
  {
    HeadCharacters(t);
    var h := t[..19];
    assert forall i | 0 <= i < 19 :: h[i] == t[i];
    assert '.' !in h;
    if |t| > 19 {
      assert FractionEnd(t) == |t|;
      assert t[19] == '.';
    }
    BeforeDotAt(t, 19);
    HeadOfPrefix(t, 19, 0, Naive);
    assert IsoHead(h);
    assert FractionEnd(h) == 19;
    assert h[19..19] == [] && h[19..] == [];
  }

  /** Strings in the ISO grammar whose zone is a numeric offset: the one
      reading that keeps its fraction. */
  predicate OffsetForm(t: string) {
    IsoShape(t) && IsOffset(ZoneText(t))
  }

  /** A reading with the zone dropped, and the fraction too unless
      `keepFraction`. */
  function WallReading(o: Option<DateTime>, keepFraction: bool): Option<DateTime> {
    match o
    case None => None
    case Some(dt) => Some(dt.(zone := Naive, microsecond := if keepFraction then dt.microsecond else 0))
  }

  /** A zone-less ISO string cut at its first dot reads as its value without
      fraction. */
  lemma NaiveReading(t: string)
    requires IsoShape(t) && ZoneText(t) == []
    ensures BeforeDot(t) == t[..19] && IsoShape(t[..19])
    ensures StrptimeSeconds(BeforeDot(t)) == WallReading(IsoValue(t), false)
  {
    NaiveHead(t);
  }

  /** So does a `Z` string once the `Z` is stripped. */
  lemma ZuluReading(t: string)
    requires IsoShape(t) && t[|t| - 1] == 'Z'
    ensures IsoShape(t[..|t| - 1]) && ZoneText(t[..|t| - 1]) == []
    ensures BeforeDot(t[..|t| - 1]) == t[..19] && IsoShape(t[..19])
    ensures StrptimeSeconds(BeforeDot(t[..|t| - 1])) == WallReading(IsoValue(t), false)
  {
    ZBase(t);
    BranchCharacters(t);
    var base := t[..|t| - 1];
    NaiveHead(base);
    HeadOfPrefix(t, |t| - 1, 0, Naive);
    assert base[..19] == t[..19];
  }

  /** How `validate_time_range` reads one bound: a `Z` or zone-less ISO
      string is cut at its first dot and read without fraction; an offset
      string goes through `fromisoformat` and loses its offset but keeps its
      fraction; a legacy string is read with `strptime`. The outcome is the
      time parser's value with the zone dropped, and with the fraction
      dropped too unless there was an offset. */
  function RangeReading(t: string): (r: Option<DateTime>)
    requires MatchesIso(t) || MatchesLegacy(t)
    ensures r == WallReading(Denotation(t), OffsetForm(t))
    ensures r.Some? ==> Valid(r.value)
  {
    IsoSplit(t);
    GrammarsDisjoint(t);
    if MatchesIso(t) then
      BranchCharacters(t);
      if t[|t| - 1] == 'Z' then
        ZuluReading(t);
        StrptimeSeconds(BeforeDot(t[..|t| - 1]))
      else if '+' in t || multiset(t)['-'] > 2 then
        match FromIsoFormat(t)
        case Some(dt) => Some(dt.(zone := Naive))
        case None => None
      else
        NaiveReading(t);
        StrptimeSeconds(BeforeDot(t))
    else
      StrptimeLegacy(t)
  }

  const EndBeforeStart: string := "End time cannot be before start time"

  /** The one case the single-symbol range check refuses: both bounds read,
      and the end's reading is an earlier wall-clock instant than the
      start's. */
  predicate EndBeforeStartOnWall(start: string, end: string)
    requires MatchesIso(start) || MatchesLegacy(start)
    requires MatchesIso(end) || MatchesLegacy(end)
  {
    RangeReading(start).Some? && RangeReading(end).Some?
    && WallMicros(RangeReading(end).value) < WallMicros(RangeReading(start).value)
  }

  /** `OHLCVQueryParams.validate_time_range(v, info)`, with `start` the
      validated start when `info.data` has one: a missing or empty end
      passes, a bound that does not read passes (its ValueError is
      swallowed), and only an end before the start is refused. */
  function OhlcvTimeRange(end: Option<string>, start: Option<string>): (r: Result<Option<string>, string>)
    requires start.Some? ==> MatchesIso(start.value) || MatchesLegacy(start.value)
    requires end.Some? && end.value != [] ==> MatchesIso(end.value) || MatchesLegacy(end.value)
    ensures r.Success? ==> r.value == end
    ensures r.Failure? ==> r.error == EndBeforeStart
    ensures r.Failure? <==> end.Some? && end.value != [] && start.Some?
                            && EndBeforeStartOnWall(start.value, end.value)
  {
    if end.Some? && end.value != [] && start.Some? then
      match (RangeReading(start.value), RangeReading(end.value))
      case (Some(s), Some(e)) =>
        BeforeIsEarlier(e, s);
        if Before(e, s) then Failure(EndBeforeStart) else Success(end)
      case _ => Success(end)
    else Success(end)
  }

  /** Equal bounds pass the request check, while the time parser's range
      check refuses them. */
  lemma EqualBoundsPass(s: string)
    requires Denotation(s).Some?
    ensures OhlcvTimeRange(Some(s), Some(s)) == Success(Some(s))
    ensures !ValidateTimeRange(ParseTimeParam(s).value, Some(ParseTimeParam(s).value)).RangeOk?
  {
    var dt := ParseTimeParam(s).value;
    if dt.zone.Aware? {
      var u := AsUtc(dt);
      if u.Some? {
        BeforeIsEarlier(u.value, u.value);
      }
    } else {
      BeforeIsEarlier(dt, dt);
    }
  }

  /** The request check drops the offset where the time parser's check
      uses it: a start with a negative offset and no fraction, and a `Z` end
      with the same date and time, pass the request check (the wall clocks
      are equal), while the time parser's check does not accept them (the
      start is the later instant). */
  lemma OffsetIgnored(s: string, t: string)
    requires OffsetForm(s) && Fraction(s) == [] && OffsetMinutes(ZoneText(s)) < 0
    requires IsoShape(t) && ZoneText(t) == "Z" && s[..19] == t[..19]
    requires Denotation(s).Some? && Denotation(t).Some?
    ensures OhlcvTimeRange(Some(t), Some(s)) == Success(Some(t))
    ensures !ValidateTimeRange(ParseTimeParam(s).value, Some(ParseTimeParam(t).value)).RangeOk?
  {
    OffsetValue(s);
    ZuluValue(t);
    HeadOfPrefix(s, 19, 0, Naive);
    HeadOfPrefix(t, 19, 0, Naive);
    var a, b := Denotation(s).value, Denotation(t).value;
    assert a.(zone := Naive) == b.(zone := Naive, microsecond := 0);
    assert RangeReading(s) == RangeReading(t);
    LaterOffsetEarlierInstant(a, b);
  }

  /** The value of an offset string without fraction. */
  lemma OffsetValue(s: string)
    requires OffsetForm(s) && Fraction(s) == [] && Denotation(s).Some?
    ensures Denotation(s).value == HeadDateTime(s, 0, Aware(OffsetMinutes(ZoneText(s))))
  {
  }

  /** The value of a `Z` string. */
  lemma ZuluValue(t: string)
    requires IsoShape(t) && ZoneText(t) == "Z" && Denotation(t).Some?
    ensures Denotation(t).value == HeadDateTime(t, FractionMicros(Fraction(t)), Aware(0))
  {
  }

  /** A start behind UTC whose wall clock ends where a UTC end begins lies
      after that end, so the time parser's check refuses the pair. */
  lemma LaterOffsetEarlierInstant(a: DateTime, b: DateTime)
    requires Valid(a) && Valid(b) && a.zone.Aware? && a.zone.offsetMinutes < 0 && b.zone == Aware(0)
    requires a.microsecond == 0 && a.(zone := Naive) == b.(zone := Naive, microsecond := 0)
    ensures !ValidateTimeRange(a, Some(b)).RangeOk?
  {
    RangeMeaning(a, b);
    assert WallMicros(b) == WallMicros(a) + b.microsecond;
  }

  /** Two zone-less or `Z` strings with the same date and time to the second
      pass the request check in either order, whatever their fractions. */
  lemma FractionIgnored(s: string, t: string)
    requires IsoShape(s) && IsoShape(t) && s[..19] == t[..19]
    requires ZoneText(s) == [] || ZoneText(s) == "Z"
    requires ZoneText(t) == [] || ZoneText(t) == "Z"
    requires Denotation(s).Some? && Denotation(t).Some?
    ensures OhlcvTimeRange(Some(t), Some(s)) == Success(Some(t))
  {
    IsoSplit(s);
    IsoSplit(t);
    var a, b := RangeReading(s).value, RangeReading(t).value;
    HeadOfPrefix(s, 19, 0, Naive);
    HeadOfPrefix(t, 19, 0, Naive);
    assert a == HeadDateTime(s, 0, Naive);
    assert b == HeadDateTime(t, 0, Naive);
    assert a == b;
  }

  // ---------------------------------------------------------------- OHLCVQueryParams

  datatype OhlcvQueryParams =
    OhlcvQueryParams(symbol: string, start: string, end: Option<string>, limit: int, offset: int)

  /** The errors pydantic collects for an `OHLCVQueryParams`, one slot per
      field in declaration order. */
  datatype OhlcvErrors = OhlcvErrors(symbol: Option<Violation>, start: Option<Violation>,
                                     end: Option<Violation>, limit: Option<Violation>,
                                     offset: Option<Violation>)
  {
    predicate Empty() {
      symbol.None? && start.None? && end.None? && limit.None? && offset.None?
    }
  }

  /** `OHLCVQueryParams(symbol=..., start=..., end=..., limit=..., offset=...)`:
      each field with its constraints and validators; the range check sees
      the start only when the start was accepted. An accepted record keeps
      the given values unchanged; a refused one reports every field that
      fails, and only those. */
  function NewOhlcvQueryParams(symbol: string, start: string, end: Option<string>,
                               limit: int := DefaultLimit, offset: int := DefaultOffset)
    : (r: Result<OhlcvQueryParams, OhlcvErrors>)
    ensures r.Success? <==>
              SymbolLengthOk(symbol) && Denotation(start).Some?
              && (end.Some? ==> Denotation(end.value).Some? && !EndBeforeStartOnWall(start, end.value))
              && MinLimit <= limit <= MaxLimit && offset >= 0
    ensures r.Success? ==> r.value == OhlcvQueryParams(symbol, start, end, limit, offset)
    ensures r.Failure? ==>
              !r.error.Empty()
              && (r.error.symbol.Some? <==> !SymbolLengthOk(symbol))
              && (r.error.start.Some? <==> Denotation(start).None?)
              && (r.error.end.Some? <==>
                    end.Some? && (Denotation(end.value).None?
                                  || (Denotation(start).Some? && EndBeforeStartOnWall(start, end.value))))
              && (r.error.limit.Some? <==> !(MinLimit <= limit <= MaxLimit))
              && (r.error.offset.Some? <==> offset < 0)
    ensures r.Failure? && end.Some? && Denotation(start).Some? && Denotation(end.value).Some? ==>
              (r.error.end == Some(Raised(EndBeforeStart)) <==> EndBeforeStartOnWall(start, end.value))
  {
    var startCheck := OhlcvTimeFormat(Some(start));
    var errors := OhlcvErrors(LengthViolation(|symbol|, 1, MaxSymbolLength),
                              RaisedViolation(startCheck),
                              RaisedViolation(EndValidators(end, if startCheck.Success? then Some(start) else None)),
                              BoundViolation(limit, MinLimit, Some(MaxLimit)),
                              BoundViolation(offset, 0, None));
    if errors.Empty() then Success(OhlcvQueryParams(symbol, start, end, limit, offset))
    else Failure(errors)
  }

  /** The two validators of `end` in order: the format check, then the range
      check when the format check passed. */
  function EndValidators(end: Option<string>, start: Option<string>): (r: Result<Option<string>, string>)
    requires start.Some? ==> Denotation(start.value).Some?
    ensures r.Success? <==> end.None? || (Denotation(end.value).Some?
                                          && !(start.Some? && EndBeforeStartOnWall(start.value, end.value)))
    ensures r.Failure? && end.Some? && Denotation(end.value).Some? ==> r.error == EndBeforeStart
    ensures r.Failure? && end.Some? && Denotation(end.value).None? ==> r.error != EndBeforeStart
  {
    var check := OhlcvTimeFormat(end);
    if check.Failure? then
      assert check.error[0] != EndBeforeStart[0];
      check
    else OhlcvTimeRange(end, start)
  }

  // ---------------------------------------------------------------- MultiSymbolQueryParams

  /** The position of the first symbol that is empty or longer than 50
      characters. */
  function FirstInvalidSymbol(symbols: seq<string>): (r: Option<nat>)
    ensures r.None? <==> forall i | 0 <= i < |symbols| :: SymbolLengthOk(symbols[i])
    ensures r.Some? ==> r.value < |symbols| && !SymbolLengthOk(symbols[r.value])
                        && forall i | 0 <= i < r.value :: SymbolLengthOk(symbols[i])
  {
    if symbols == [] then None
    else if !SymbolLengthOk(symbols[0]) then Some(0)
    else
      match FirstInvalidSymbol(symbols[1..])
      case None => None
      case Some(i) => Some(i + 1)
  }

  function InvalidSymbolMessage(symbol: string): string {
    "Invalid symbol: " + symbol + ". Must be 1-50 characters."
  }

  /** What `validate_symbols` returns or raises: the list itself when every
      symbol has 1 to 50 characters, else the error naming the first one
      that does not. */
  function SymbolsCheck(symbols: seq<string>): (r: Result<seq<string>, string>)
    ensures r.Success? <==> forall i | 0 <= i < |symbols| :: SymbolLengthOk(symbols[i])
    ensures r.Success? ==> r.value == symbols
    ensures r.Failure? ==> exists i | 0 <= i < |symbols| ::
              !SymbolLengthOk(symbols[i]) && (forall j | 0 <= j < i :: SymbolLengthOk(symbols[j]))
              && r.error == InvalidSymbolMessage(symbols[i])
  {
    match FirstInvalidSymbol(symbols)
    case None => Success(symbols)
    case Some(i) => Failure(InvalidSymbolMessage(symbols[i]))
  }

  /** `MultiSymbolQueryParams.validate_symbols`: the loop over the symbols,
      stopping at the first invalid one. */
  method ValidateSymbols(symbols: seq<string>) returns (r: Result<seq<string>, string>)
    ensures r == SymbolsCheck(symbols)
  {
    var i := 0;
    while i < |symbols|
      invariant 0 <= i <= |symbols|
      invariant forall j | 0 <= j < i :: SymbolLengthOk(symbols[j])
    {
      if symbols[i] == [] || |symbols[i]| > MaxSymbolLength {
        FirstInvalidAt(symbols, i);
        return Failure(InvalidSymbolMessage(symbols[i]));
      }
      i := i + 1;
    }
    return Success(symbols);
  }

  /** An invalid symbol with only valid symbols before it is the first
      invalid one. */
  lemma FirstInvalidAt(symbols: seq<string>, i: nat)
    requires i < |symbols| && !SymbolLengthOk(symbols[i])
    requires forall j | 0 <= j < i :: SymbolLengthOk(symbols[j])
    ensures FirstInvalidSymbol(symbols) == Some(i)
  {
    var r := FirstInvalidSymbol(symbols);
    assert r.Some?;
    assert !(r.value < i) && !(i < r.value);
  }

  datatype MultiSymbolQueryParams =
    MultiSymbolQueryParams(symbols: seq<string>, start: string, end: Option<string>, limit: int, offset: int)

  datatype MultiErrors = MultiErrors(symbols: Option<Violation>, start: Option<Violation>,
                                     end: Option<Violation>, limit: Option<Violation>,
                                     offset: Option<Violation>)
  {
    predicate Empty() {
      symbols.None? && start.None? && end.None? && limit.None? && offset.None?
    }
  }

  /** `MultiSymbolQueryParams(...)`: 1 to 100 symbols each of 1 to 50
      characters, the two time strings checked separately (there is no range
      check), and the same limit and offset bounds. A list of admissible
      length with an invalid symbol is refused with the validator's message
      for the first such symbol. */
  function NewMultiSymbolQueryParams(symbols: seq<string>, start: string, end: Option<string>,
                                     limit: int := DefaultLimit, offset: int := DefaultOffset)
    : (r: Result<MultiSymbolQueryParams, MultiErrors>)
    ensures r.Success? <==>
              1 <= |symbols| <= MaxSymbols && (forall i | 0 <= i < |symbols| :: SymbolLengthOk(symbols[i]))
              && Denotation(start).Some? && (end.Some? ==> Denotation(end.value).Some?)
              && MinLimit <= limit <= MaxLimit && offset >= 0
    ensures r.Success? ==> r.value == MultiSymbolQueryParams(symbols, start, end, limit, offset)
    ensures r.Failure? ==>
              !r.error.Empty()
              && (r.error.symbols == Some(TooShort(1)) <==> symbols == [])
              && (r.error.symbols == Some(TooLong(MaxSymbols)) <==> |symbols| > MaxSymbols)
              && (r.error.symbols.Some? <==> !(1 <= |symbols| <= MaxSymbols) || FirstInvalidSymbol(symbols).Some?)
              && (r.error.start.Some? <==> Denotation(start).None?)
              && (r.error.end.Some? <==> end.Some? && Denotation(end.value).None?)
              && (r.error.limit.Some? <==> !(MinLimit <= limit <= MaxLimit))
              && (r.error.offset.Some? <==> offset < 0)
    ensures r.Failure? && 1 <= |symbols| <= MaxSymbols && FirstInvalidSymbol(symbols).Some? ==>
              r.error.symbols == Some(Raised(InvalidSymbolMessage(symbols[FirstInvalidSymbol(symbols).value])))
  {
    var listCheck := LengthViolation(|symbols|, 1, MaxSymbols);
    var errors := MultiErrors(if listCheck.Some? then listCheck else RaisedViolation(SymbolsCheck(symbols)),
                              RaisedViolation(MultiTimeFormat(Some(start))),
                              RaisedViolation(MultiTimeFormat(end)),
                              BoundViolation(limit, MinLimit, Some(MaxLimit)),
                              BoundViolation(offset, 0, None));
    if errors.Empty() then Success(MultiSymbolQueryParams(symbols, start, end, limit, offset))
    else Failure(errors)
  }

  // ---------------------------------------------------------------- LatestQueryParams

  datatype LatestQueryParams = LatestQueryParams(symbol: string)

  const SymbolLengthMessage: string := "Symbol must be 1-50 characters"

  /** `LatestQueryParams.validate_symbol`. */
  function ValidateSymbol(v: string): (r: Result<string, string>)
    ensures r.Success? <==> SymbolLengthOk(v)
    ensures r.Success? ==> r.value == v
    ensures r.Failure? ==> r.error == SymbolLengthMessage
  {
    if v == [] || |v| > MaxSymbolLength then Failure(SymbolLengthMessage) else Success(v)
  }

  /** `LatestQueryParams(symbol=...)`: the length constraints run first, and
      the validator only on a symbol they let through. */
  function NewLatestQueryParams(symbol: string): (r: Result<LatestQueryParams, Violation>)
    ensures r.Success? <==> SymbolLengthOk(symbol)
    ensures r.Success? ==> r.value == LatestQueryParams(symbol)
    ensures symbol == [] ==> r == Failure(TooShort(1))
    ensures |symbol| > MaxSymbolLength ==> r == Failure(TooLong(MaxSymbolLength))
  {
    var lengthCheck := LengthViolation(|symbol|, 1, MaxSymbolLength);
    if lengthCheck.Some? then Failure(lengthCheck.value)
    else match ValidateSymbol(symbol)
         case Success(s) => Success(LatestQueryParams(s))
         case Failure(m) => Failure(Raised(m))
  }
}
