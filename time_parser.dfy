/** The time parameter parser: the ISO 8601 and legacy grammars, the value
    each accepted string denotes, the error raised for every other string,
    the ClickHouse rendering of a parsed value, and the start/end check. */
module TimeParser {
  import opened Wrappers
  import opened Digits
  import opened PyDateTime
  import opened Exceptions

  // ---------------------------------------------------------------- grammars

  /** The six digit groups of `YYYY-MM-DD?HH:MM:SS` at the start of `s`. */
  predicate HeadDigits(s: string) {
    |s| >= 19
    && AllDigits(s[0..4]) && AllDigits(s[5..7]) && AllDigits(s[8..10])
    && AllDigits(s[11..13]) && AllDigits(s[14..16]) && AllDigits(s[17..19])
  }

  /** `YYYY-MM-DD`, `sep`, `HH:MM:SS` at the start of `s`. */
  predicate ClockShape(s: string, sep: char) {
    HeadDigits(s) && s[4] == '-' && s[7] == '-' && s[10] == sep && s[13] == ':' && s[16] == ':'
  }

  /** `\d{4}-\d{2}-\d{2}T\d{2}:\d{2}:\d{2}` at the start of `s`. */
  predicate IsoHead(s: string) {
    ClockShape(s, 'T')
  }

  /** `(\.\d{1,6})?` */
  predicate IsFraction(f: string) {
    f == [] || (2 <= |f| <= 7 && f[0] == '.' && AllDigits(f[1..]))
  }

  /** `[+-]\d{2}:\d{2}` */
  predicate IsOffset(z: string) {
    |z| == 6 && (z[0] == '+' || z[0] == '-') && AllDigits(z[1..3]) && z[3] == ':' && AllDigits(z[4..6])
  }

  /** `(Z|[+-]\d{2}:\d{2})?` */
  predicate IsZone(z: string) {
    z == [] || z == "Z" || IsOffset(z)
  }

  /** `ISO8601_PATTERN.match(s)`, read as the regular expression reads: a head,
      then a fraction and a zone split anywhere. */
  predicate MatchesIso(s: string) {
    IsoHead(s) && exists k | 19 <= k <= |s| :: IsFraction(s[19..k]) && IsZone(s[k..])
  }

  /** `LEGACY_PATTERN.match(s)`: `\d{8}-\d{4}`, with its digits grouped as
      the fields `%Y%m%d-%H%M` reads. */
  predicate MatchesLegacy(s: string) {
    |s| == 13 && AllDigits(s[0..4]) && AllDigits(s[4..6]) && AllDigits(s[6..8]) && s[8] == '-'
    && AllDigits(s[9..11]) && AllDigits(s[11..13])
  }

  /** Where the fraction of an ISO string ends: after the digits following a
      dot at position 19, or at 19 when there is no dot there. */
  function FractionEnd(s: string): (k: nat)
    requires |s| >= 19
    ensures 19 <= k <= |s|
  {
    if |s| > 19 && s[19] == '.' then 20 + LeadingDigits(s[20..]) else 19
  }

  /** The ISO grammar with its split computed rather than guessed. */
  predicate IsoShape(s: string) {
    IsoHead(s) && IsFraction(s[19..FractionEnd(s)]) && IsZone(s[FractionEnd(s)..])
  }

  /** A zone never starts with a digit, so the fraction/zone boundary is
      unique. */
  lemma SplitUnique(s: string, k: int)
    requires |s| >= 19 && 19 <= k <= |s| && IsFraction(s[19..k]) && IsZone(s[k..])
    ensures FractionEnd(s) == k
  {
    if k > 19 {
      var t := s[20..];
      assert t[..k - 20] == s[19..k][1..];
      assert k - 20 < |t| ==> t[k - 20] == s[k..][0];
      LeadingDigitsExact(t, k - 20);
    } else if |s| > 19 {
      assert s[19] == s[k..][0];
    }
  }

  /** The regular expression's reading and the computed split agree. */
  lemma IsoSplit(s: string)
    ensures MatchesIso(s) <==> IsoShape(s)
  {
    if MatchesIso(s) {
      var k :| 19 <= k <= |s| && IsFraction(s[19..k]) && IsZone(s[k..]);
      SplitUnique(s, k);
    }
    if IsoShape(s) {
      var k := FractionEnd(s);
      assert IsFraction(s[19..k]) && IsZone(s[k..]);
    }
  }

  /** The characters of an ISO head: digits and the separators `-`, `T`, `:`,
      with hyphens at positions 4 and 7 only. */
  lemma HeadCharacters(s: string)
    requires IsoHead(s)
    ensures forall i | 0 <= i < 19 :: s[i] != '.' && s[i] != '+' && s[i] != 'Z'
    ensures forall i | 0 <= i < 19 :: s[i] == '-' <==> i == 4 || i == 7
    ensures IsDigit(s[18])
    ensures multiset(s[..19])['-'] == 2
  {
    forall i | 0 <= i < 19
      ensures s[i] != '.' && s[i] != '+' && s[i] != 'Z' && (s[i] == '-' <==> i == 4 || i == 7)
    {
      if i < 4 { assert s[0..4][i] == s[i]; }
      else if 5 <= i < 7 { assert s[5..7][i - 5] == s[i]; }
      else if 8 <= i < 10 { assert s[8..10][i - 8] == s[i]; }
      else if 11 <= i < 13 { assert s[11..13][i - 11] == s[i]; }
      else if 14 <= i < 16 { assert s[14..16][i - 14] == s[i]; }
      else if 17 <= i < 19 { assert s[17..19][i - 17] == s[i]; }
    }
    assert s[17..19][1] == s[18];
    var h := s[..19];
    assert h == s[0..4] + [s[4]] + s[5..7] + [s[7]] + s[8..19];
    assert forall i | 0 <= i < 4 :: s[0..4][i] == s[i];
    assert forall i | 0 <= i < 2 :: s[5..7][i] == s[5 + i];
    assert forall i | 0 <= i < 11 :: s[8..19][i] == s[8 + i];
    assert '-' !in s[0..4] && '-' !in s[5..7] && '-' !in s[8..19];
  }

  /** The pieces of an ISO string. */
  function Fraction(s: string): string
    requires IsoShape(s)
  {
    s[19..FractionEnd(s)]
  }

  function ZoneText(s: string): string
    requires IsoShape(s)
  {
    s[FractionEnd(s)..]
  }

  /** The head, the fraction and the zone make up the string. */
  lemma IsoPieces(s: string)
    requires IsoShape(s)
    ensures s == s[..19] + Fraction(s) + ZoneText(s)
  {
  }

  /** A fraction holds a dot and digits only. */
  lemma FractionCharacters(f: string)
    requires IsFraction(f)
    ensures '-' !in f && '+' !in f && 'Z' !in f
    ensures f != [] ==> f[0] == '.' && IsDigit(f[|f| - 1])
  {
    if f != [] {
      assert forall i | 1 <= i < |f| :: f[i] == f[1..][i - 1];
      assert f[|f| - 1] == f[1..][|f| - 2];
    }
  }

  /** An offset holds one sign, digits and a colon. */
  lemma OffsetCharacters(z: string)
    requires IsOffset(z)
    ensures IsDigit(z[5])
    ensures multiset(z)['-'] == (if z[0] == '-' then 1 else 0)
    ensures '+' in z <==> z[0] == '+'
  {
    assert z[5] == z[4..6][1];
    assert z == [z[0]] + z[1..3] + [z[3]] + z[4..6];
    assert '-' !in z[1..3] && '-' !in z[4..6] && '+' !in z[1..3] && '+' !in z[4..6];
  }

  /** A dot appears exactly when there is a fraction. */
  lemma DotMarksFraction(s: string)
    requires IsoShape(s)
    ensures '.' in s <==> Fraction(s) != []
  {
    HeadCharacters(s);
    IsoPieces(s);
    var f, z := Fraction(s), ZoneText(s);
    assert '.' !in s[..19];
    if z == "Z" { assert '.' !in z; }
    if IsOffset(z) { assert forall i | 0 <= i < 6 :: z[i] != '.' by { assert z[1..3][0] == z[1] && z[1..3][1] == z[2] && z[4..6][0] == z[4] && z[4..6][1] == z[5]; } }
    if f != [] { assert s[19] == '.'; }
  }

  /** A trailing `Z` appears exactly for the `Z` zone. */
  lemma TrailingZMarksUtc(s: string)
    requires IsoShape(s)
    ensures s[|s| - 1] == 'Z' <==> ZoneText(s) == "Z"
  {
    HeadCharacters(s);
    IsoPieces(s);
    var f, z := Fraction(s), ZoneText(s);
    FractionCharacters(f);
    if z == [] {
      if f == [] { assert |s| == 19; }
      else { assert s[|s| - 1] == f[|f| - 1]; }
    } else if IsOffset(z) {
      OffsetCharacters(z);
      assert s[|s| - 1] == z[5];
    }
  }

  /** A plus sign or a third hyphen appears exactly for a numeric offset. */
  lemma SignMarksOffset(s: string)
    requires IsoShape(s)
    ensures ('+' in s || multiset(s)['-'] > 2) <==> IsOffset(ZoneText(s))
  {
    HeadCharacters(s);
    IsoPieces(s);
    var f, z := Fraction(s), ZoneText(s);
    FractionCharacters(f);
    assert multiset(s) == multiset(s[..19]) + multiset(f) + multiset(z);
    assert '+' !in s[..19];
    if IsOffset(z) {
      OffsetCharacters(z);
    } else {
      assert '+' !in z && '-' !in z;
    }
  }

  /** Which characters tell the branches of the parser apart. */
  lemma BranchCharacters(s: string)
    requires IsoShape(s)
    ensures '.' in s <==> Fraction(s) != []
    ensures s[|s| - 1] == 'Z' <==> ZoneText(s) == "Z"
    ensures ('+' in s || multiset(s)['-'] > 2) <==> IsOffset(ZoneText(s))
  {
    DotMarksFraction(s);
    TrailingZMarksUtc(s);
    SignMarksOffset(s);
  }

  // ---------------------------------------------------------------- values

  /** The number written by the `n` digits at position `i`. */
  function Field(s: string, i: nat, n: nat): nat
    requires i + n <= |s| && AllDigits(s[i..i + n])
  {
    DigitsValue(s[i..i + n])
  }

  /** The datetime whose date and time of day are the digit groups of `s`. */
  function HeadDateTime(s: string, us: int, zone: Zone): DateTime
    requires HeadDigits(s)
  {
    DateTime(Field(s, 0, 4), Field(s, 5, 2), Field(s, 8, 2), Field(s, 11, 2), Field(s, 14, 2),
             Field(s, 17, 2), us, zone)
  }

  /** A longer string with the same head has the same head fields. */
  lemma HeadOfPrefix(s: string, n: int, us: int, zone: Zone)
    requires HeadDigits(s) && 19 <= n <= |s|
    ensures HeadDigits(s[..n]) && HeadDateTime(s[..n], us, zone) == HeadDateTime(s, us, zone)
    ensures s[..n][4] == s[4] && s[..n][7] == s[7] && s[..n][10] == s[10]
    ensures s[..n][13] == s[13] && s[..n][16] == s[16]
  {
    var b := s[..n];
    assert b[0..4] == s[0..4] && b[5..7] == s[5..7] && b[8..10] == s[8..10];
    assert b[11..13] == s[11..13] && b[14..16] == s[14..16] && b[17..19] == s[17..19];
  }

  /** A fraction as microseconds: its digits right-padded with zeros to six. */
  function FractionMicros(f: string): (us: nat)
    requires IsFraction(f)
    ensures us < 1000000
  {
    if f == [] then 0
    else
      ZerosScale(f[1..], 7 - |f|);
      assert Pow10(6) == 1000000;
      DigitsValue(f[1..] + Zeros(7 - |f|))
  }

  /** `±HH:MM` as signed minutes east of UTC. */
  function OffsetMinutes(z: string): int
    requires IsOffset(z)
  {
    (if z[0] == '-' then -1 else 1) * (Field(z, 1, 2) * 60 + Field(z, 4, 2))
  }

  function ZoneOf(z: string): Zone
    requires IsZone(z)
  {
    if z == [] then Naive else if z == "Z" then Aware(0) else Aware(OffsetMinutes(z))
  }

  /** What an ISO string denotes: its head's fields, its fraction as
      microseconds and its zone, or None when those fields are no datetime. */
  function IsoValue(s: string): Option<DateTime>
    requires IsoShape(s)
  {
    Checked(HeadDateTime(s, FractionMicros(Fraction(s)), ZoneOf(ZoneText(s))))
  }

  /** `datetime.strptime(t, "%Y-%m-%dT%H:%M:%S")` on an ISO string: the fields
      when nothing follows the seconds, else the ValueError for the
      unconverted rest. */
  function StrptimeSeconds(t: string): Option<DateTime>
    requires IsoShape(t)
  {
    if |t| == 19 then
      Checked(HeadDateTime(t, 0, Naive))
    else None
  }

  /** `datetime.strptime(t, "%Y-%m-%dT%H:%M:%S.%f")` on an ISO string: needs a
      fraction and nothing after it. */
  function StrptimeFraction(t: string): Option<DateTime>
    requires IsoShape(t)
  {
    if Fraction(t) != [] && ZoneText(t) == [] then
      Checked(HeadDateTime(t, FractionMicros(Fraction(t)), Naive))
    else None
  }

  /** `datetime.fromisoformat(t)` on an ISO string (1 to 6 fraction digits and
      any of the three zone forms are read; a zone of a day or more is the
      ValueError of `timezone`). */
  function FromIsoFormat(t: string): Option<DateTime>
    requires IsoShape(t)
  {
    IsoValue(t)
  }

  /** `datetime.strptime(s, "%Y%m%d-%H%M")` on a legacy string: seconds zero. */
  function StrptimeLegacy(s: string): Option<DateTime>
    requires MatchesLegacy(s)
  {
    Checked(DateTime(Field(s, 0, 4), Field(s, 4, 2), Field(s, 6, 2), Field(s, 9, 2), Field(s, 11, 2),
                     0, 0, Naive))
  }

  /** The ISO branch of `parse_time_param` as written: strip a `Z` and parse
      with `strptime`, use `fromisoformat` when a `+` or a third `-` shows an
      offset, else parse the naive form with `strptime`. */
  function IsoAttempt(s: string): Option<DateTime>
    requires IsoShape(s)
  {
    if s[|s| - 1] == 'Z' then
      var base := s[..|s| - 1];
      ZBase(s);
      var dt := if '.' in base then StrptimeFraction(base) else StrptimeSeconds(base);
      if dt.Some? then Some(dt.value.(zone := Aware(0))) else None
    else if '+' in s || multiset(s)['-'] > 2 then FromIsoFormat(s)
    else if '.' in s then StrptimeFraction(s)
    else StrptimeSeconds(s)
  }

  /** Dropping the `Z` leaves the naive ISO string with the same fraction. */
  lemma ZBase(s: string)
    requires IsoShape(s) && s[|s| - 1] == 'Z'
    ensures IsoShape(s[..|s| - 1])
    ensures Fraction(s[..|s| - 1]) == Fraction(s) && ZoneText(s[..|s| - 1]) == []
  {
    BranchCharacters(s);
    var b := s[..|s| - 1];
    var k := FractionEnd(s);
    HeadOfPrefix(s, |s| - 1, 0, Naive);
    assert IsoHead(b);
    assert k == |b|;
    assert b[19..k] == s[19..k];
    assert b[k..] == [];
    SplitUnique(b, k);
  }

  /** Every branch of the ISO parser reads the string as the grammar says. */
  lemma IsoAttemptMeaning(s: string)
    requires IsoShape(s)
    ensures IsoAttempt(s) == IsoValue(s)
  {
    BranchCharacters(s);
    if s[|s| - 1] == 'Z' {
      ZBase(s);
      var b := s[..|s| - 1];
      BranchCharacters(b);
      HeadOfPrefix(s, |s| - 1, FractionMicros(Fraction(s)), Naive);
    }
  }

  // ---------------------------------------------------------------- parse_time_param

  const IsoExpected: string := "ISO 8601 (e.g., 2025-07-01T00:00:00Z, 2025-07-01T00:00:00+03:00)"
  const LegacyExpected: string := "YYYYMMDD-HHmm (legacy format, deprecated)"
  /** The `expected_format` of the error for a string in neither grammar. */
  const AnyExpected: string :=
    "ISO 8601" + " format (e.g., 2025-07-01T00:00:00Z) or legacy format (YYYYMMDD-HHmm)"
  const SupportedFormats: seq<string> := [
    "2025-07-01T00:00:00",
    "2025-07-01T00:00:00Z",
    "2025-07-01T00:00:00+03:00",
    "2025-07-01T00:00:00.000Z",
    "20250701-0000 (legacy, deprecated)"
  ]

  /** The arguments `parse_time_param` passes to `InvalidTimeFormatError`. */
  datatype TimeFormatFailure =
    TimeFormatFailure(message: string, provided: string, expected: string, details: Entries)

  /** The details the raised error ends up holding. */
  function RaisedDetails(f: TimeFormatFailure): Entries {
    TimeFormatDetails(f.details, Some(f.provided), f.expected)
  }

  /** What the two grammars and the datetime constructor accept, independently
      of how the parser branches. */
  function Denotation(s: string): Option<DateTime> {
    if IsoShape(s) then IsoValue(s)
    else if MatchesLegacy(s) then StrptimeLegacy(s)
    else None
  }

  /** `parse_time_param(time_str)`: the ISO grammar first, then the legacy
      one, each failure raised as InvalidTimeFormatError. */
  function ParseTimeParam(s: string): (r: Result<DateTime, TimeFormatFailure>)
    ensures r.Success? <==> Denotation(s).Some?
    ensures r.Success? ==> r.value == Denotation(s).value && Valid(r.value)
    ensures r.Failure? ==> r.error.provided == s
    ensures r.Failure? && MatchesIso(s) ==>
              r.error.message == "Invalid ISO 8601 time format: " + s
              && r.error.expected == IsoExpected && r.error.details == [("error", LibraryMessage)]
    ensures r.Failure? && MatchesLegacy(s) ==>
              r.error.message == "Invalid legacy time format: " + s
              && r.error.expected == LegacyExpected && r.error.details == [("error", LibraryMessage)]
    ensures !MatchesIso(s) && !MatchesLegacy(s) ==>
              r.Failure? && r.error.message == "Invalid time format: " + s
              && r.error.expected == AnyExpected
              && r.error.details == [("supported_formats", TextList(SupportedFormats))]
  {
    IsoSplit(s);
    GrammarsDisjoint(s);
    if MatchesIso(s) then
      IsoAttemptMeaning(s);
      match IsoAttempt(s)
      case Some(dt) => Success(dt)
      case None => Failure(TimeFormatFailure("Invalid ISO 8601 time format: " + s, s, IsoExpected,
                                             [("error", LibraryMessage)]))
    else if MatchesLegacy(s) then
      match StrptimeLegacy(s)
      case Some(dt) => Success(dt)
      case None => Failure(TimeFormatFailure("Invalid legacy time format: " + s, s, LegacyExpected,
                                             [("error", LibraryMessage)]))
    else
      Failure(TimeFormatFailure("Invalid time format: " + s, s, AnyExpected,
                                [("supported_formats", TextList(SupportedFormats))]))
  }

  /** `parse_iso8601_or_legacy`, kept as another name for the parser. */
  function ParseIso8601OrLegacy(s: string): (r: Result<DateTime, TimeFormatFailure>)
    ensures r == ParseTimeParam(s)
  {
    ParseTimeParam(s)
  }

  /** No string is in both grammars: a legacy string has a digit where an ISO
      string has its first hyphen. */
  lemma GrammarsDisjoint(s: string)
    ensures !(MatchesIso(s) && MatchesLegacy(s))
  {
    if MatchesLegacy(s) {
      assert s[4] == s[4..6][0];
    }
  }

  /** A string in neither grammar is refused; the raised error records the
      string itself when it is non-empty, and an expected format naming ISO
      8601. */
  lemma NeitherFormat(s: string)
    requires !MatchesIso(s) && !MatchesLegacy(s)
    ensures var r := ParseTimeParam(s);
            r.Failure? && r.error.provided == s
            && Lookup(RaisedDetails(r.error), "provided") == (if s == "" then None else Some(Text(s)))
            && Lookup(RaisedDetails(r.error), "expected_format") == Some(Text(AnyExpected))
            && AnyExpected[..8] == "ISO 8601"
            && Lookup(RaisedDetails(r.error), "supported_formats") == Some(TextList(SupportedFormats))
  {
    var r := ParseTimeParam(s);
    var d := r.error.details;
    assert d == [("supported_formats", TextList(SupportedFormats))];
    assert Lookup(d, "provided") == None;
    assert Given(Some(s)) <==> s != "";
    assert RaisedDetails(r.error) == TimeFormatDetails(d, Some(s), AnyExpected);
  }

  /** A legacy string yields a naive value with its digits as year, month,
      day, hour and minute and zero seconds, exactly when those make a
      datetime. */
  lemma LegacyFields(s: string)
    requires MatchesLegacy(s)
    ensures var dt := DateTime(Field(s, 0, 4), Field(s, 4, 2), Field(s, 6, 2), Field(s, 9, 2),
                               Field(s, 11, 2), 0, 0, Naive);
            (ParseTimeParam(s).Success? <==> Valid(dt))
            && (ParseTimeParam(s).Success? ==> ParseTimeParam(s).value == dt)
    ensures ParseTimeParam(s).Failure? ==>
              ParseTimeParam(s).error.message == "Invalid legacy time format: " + s
  {
    GrammarsDisjoint(s);
    IsoSplit(s);
  }

  /** An ISO string the parser accepts yields exactly its written fields, its
      fraction right-padded to microseconds, and the zone it names: none for
      no suffix, UTC for `Z`, the signed offset for `±HH:MM`. */
  lemma IsoFields(s: string)
    requires IsoShape(s) && ParseTimeParam(s).Success?
    ensures ParseTimeParam(s).value == HeadDateTime(s, FractionMicros(Fraction(s)), ZoneOf(ZoneText(s)))
    ensures ZoneText(s) == [] ==> ParseTimeParam(s).value.zone == Naive
    ensures ZoneText(s) == "Z" ==> ParseTimeParam(s).value.zone == Aware(0)
    ensures IsOffset(ZoneText(s)) ==> ParseTimeParam(s).value.zone == Aware(OffsetMinutes(ZoneText(s)))
  {
  }

  /** The fraction's digits, scaled to six places: `.123` is 123000 and
      `.123456` is 123456 microseconds. */
  lemma FractionPadding(f: string)
    requires IsFraction(f) && f != []
    ensures FractionMicros(f) == DigitsValue(f[1..]) * Pow10(7 - |f|)
  {
    ZerosScale(f[1..], 7 - |f|);
  }

  lemma FractionExamples()
    ensures FractionMicros(".123") == 123000
    ensures FractionMicros(".123456") == 123456
  {
    FractionPadding(".123");
    assert ".123"[1..] == "123";
    assert DigitsValue("123") == 123 by {
      assert "123"[..2] == "12" && "12"[..1] == "1" && "1"[..0] == "";
    }
    FractionPadding(".123456");
    assert ".123456"[1..] == "123456";
    assert DigitsValue("123456") == 123456 by {
      assert "123456"[..5] == "12345" && "12345"[..4] == "1234" && "1234"[..3] == "123";
      assert "123"[..2] == "12" && "12"[..1] == "1" && "1"[..0] == "";
    }
  }

  // ---------------------------------------------------------------- format_for_clickhouse

  /** The instant a datetime denotes: the UTC reading when aware, the wall
      clock when naive. */
  function Instant(dt: DateTime): int
    requires 1 <= dt.month <= 12
  {
    if dt.zone.Aware? then UtcMicros(dt) else WallMicros(dt)
  }

  /** How ClickHouse reads `YYYY-MM-DD HH:MM:SS`: a naive datetime with whole
      seconds. */
  function ReadClickhouse(t: string): Option<DateTime> {
    if |t| == 19 && ClockShape(t, ' ') then Checked(HeadDateTime(t, 0, Naive)) else None
  }

  /** Every field written into a clock text reads back. */
  lemma ClockFields(dt: DateTime, sep: char)
    requires Valid(dt)
    ensures ClockShape(Clock(dt, sep), sep)
    ensures HeadDateTime(Clock(dt, sep), dt.microsecond, dt.zone) == dt
  {
    ClockLayout(dt, sep);
    assert Pow10(4) == 10000 && Pow10(2) == 100;
    PadValue(dt.year, 4);
    PadValue(dt.month, 2);
    PadValue(dt.day, 2);
    PadValue(dt.hour, 2);
    PadValue(dt.minute, 2);
    PadValue(dt.second, 2);
  }

  /** The strftime text reads back as the same datetime without its
      microseconds and zone. */
  lemma StrftimeReadsBack(dt: DateTime)
    requires Valid(dt)
    ensures ReadClickhouse(Strftime(dt)) == Some(dt.(microsecond := 0, zone := Naive))
  {
    ClockLayout(dt, ' ');
    ClockFields(dt, ' ');
  }

  /** `format_for_clickhouse(dt)`: an aware value is moved to UTC (raising
      OverflowError when that leaves the representable range) and printed
      `%Y-%m-%d %H:%M:%S`; a naive one is printed as it is. What ClickHouse
      reads back is the value's instant, truncated to the second. */
  function FormatForClickhouse(dt: DateTime): (r: Result<string, PyError>)
    requires Valid(dt)
    ensures r.Failure? <==> dt.zone.Aware? && !InRange(UtcMicros(dt))
    ensures r.Failure? ==> r.error == OverflowError
    ensures r.Success? ==> |r.value| == 19 && ReadClickhouse(r.value).Some?
                           && WallMicros(ReadClickhouse(r.value).value) == Instant(dt) - dt.microsecond
  {
    if dt.zone.Aware? then
      match AsUtc(dt)
      case None => Failure(OverflowError)
      case Some(u) =>
        StrftimeReadsBack(u.(zone := Naive));
        Success(Strftime(u.(zone := Naive)))
    else
      StrftimeReadsBack(dt);
      Success(Strftime(dt))
  }

  /** A UTC value is already in UTC. */
  lemma UtcStaysPut(dt: DateTime)
    requires Valid(dt) && dt.zone == Aware(0)
    ensures AsUtc(dt) == Some(dt)
  {
    var m := dt.hour * 60 + dt.minute;
    assert m / 60 == dt.hour && m % 60 == dt.minute;
  }

  /** Parsing then formatting a naive or `Z` ISO string gives back its date
      and time with a space for the `T` and without any fraction:
      `2025-07-01T15:30:00Z` gives `2025-07-01 15:30:00`. */
  lemma IsoToClickhouse(s: string)
    requires IsoShape(s) && (ZoneText(s) == [] || ZoneText(s) == "Z")
    requires ParseTimeParam(s).Success?
    ensures FormatForClickhouse(ParseTimeParam(s).value).Success?
    ensures FormatForClickhouse(ParseTimeParam(s).value).value == s[0..10] + " " + s[11..19]
  {
    var dt := ParseTimeParam(s).value;
    IsoFields(s);
    if dt.zone.Aware? {
      UtcStaysPut(dt);
    }
    assert FormatForClickhouse(dt) == Success(Strftime(dt.(zone := Naive)));
    HeadToClickhouse(s, dt.(zone := Naive));
  }

  /** A datetime holding the fields of an ISO head prints as that head with
      a space for the `T`. */
  lemma HeadToClickhouse(s: string, dt: DateTime)
    requires IsoHead(s) && Valid(dt)
    requires dt.year == Field(s, 0, 4) && dt.month == Field(s, 5, 2) && dt.day == Field(s, 8, 2)
             && dt.hour == Field(s, 11, 2) && dt.minute == Field(s, 14, 2) && dt.second == Field(s, 17, 2)
    ensures Strftime(dt) == s[0..10] + " " + s[11..19]
  {
    ValuePad(s[0..4]);
    ValuePad(s[5..7]);
    ValuePad(s[8..10]);
    ValuePad(s[11..13]);
    ValuePad(s[14..16]);
    ValuePad(s[17..19]);
    StrftimeFromParts(dt, s[0..4], s[5..7], s[8..10], s[11..13], s[14..16], s[17..19]);
    HeadJoin(s);
  }

  lemma HeadJoin(s: string)
    requires IsoHead(s)
    ensures s[0..10] + " " + s[11..19]
            == s[0..4] + "-" + s[5..7] + "-" + s[8..10] + " " + s[11..13] + ":" + s[14..16] + ":" + s[17..19]
  {
    assert s[0..10] == s[0..4] + "-" + s[5..7] + "-" + s[8..10];
    assert s[11..19] == s[11..13] + ":" + s[14..16] + ":" + s[17..19];
  }

  /** Parsing then formatting a legacy string gives its date and time with
      zero seconds: `20250701-1530` gives `2025-07-01 15:30:00`. */
  lemma LegacyToClickhouse(s: string)
    requires MatchesLegacy(s) && ParseTimeParam(s).Success?
    ensures FormatForClickhouse(ParseTimeParam(s).value)
            == Success(s[0..4] + "-" + s[4..6] + "-" + s[6..8] + " " + s[9..11] + ":" + s[11..13] + ":00")
  {
    var dt := ParseTimeParam(s).value;
    LegacyFields(s);
    LegacyText(s, dt);
    assert FormatForClickhouse(dt) == Success(Strftime(dt));
  }

  lemma LegacyText(s: string, dt: DateTime)
    requires MatchesLegacy(s) && Valid(dt)
    requires dt == DateTime(Field(s, 0, 4), Field(s, 4, 2), Field(s, 6, 2), Field(s, 9, 2),
                            Field(s, 11, 2), 0, 0, Naive)
    ensures Strftime(dt) == s[0..4] + "-" + s[4..6] + "-" + s[6..8] + " " + s[9..11] + ":" + s[11..13] + ":00"
  {
    ValuePad(s[0..4]);
    ValuePad(s[4..6]);
    ValuePad(s[6..8]);
    ValuePad(s[9..11]);
    ValuePad(s[11..13]);
    PadZeroTwo();
    StrftimeFromParts(dt, s[0..4], s[4..6], s[6..8], s[9..11], s[11..13], "00");
  }

  // ---------------------------------------------------------------- validate_time_range

  datatype RangeOutcome =
    | RangeOk
      /** The ValueError raised when the end is not after the start. */
    | EndNotAfterStart(message: string)
      /** A Python error raised by the comparison or the conversion to UTC. */
    | RangeRaised(error: PyError)

  /** `validate_time_range(start, end)`: no end passes; two aware values are
      compared in UTC, two naive ones as they are, and a mix raises
      TypeError; an end at or before the start raises "must be after". */
  function ValidateTimeRange(start: DateTime, end: Option<DateTime>): (r: RangeOutcome)
    requires Valid(start) && (end.Some? ==> Valid(end.value))
    ensures end.None? ==> r == RangeOk
    ensures r.EndNotAfterStart? ==>
              r.message == "End time (" + IsoFormat(end.value, ' ') + ") must be after start time ("
                           + IsoFormat(start, ' ') + ")"
  {
    if end.None? then RangeOk
    else
      var e := end.value;
      var message := "End time (" + IsoFormat(e, ' ') + ") must be after start time ("
                     + IsoFormat(start, ' ') + ")";
      if start.zone.Aware? && e.zone.Aware? then
        match AsUtc(start)
        case None => RangeRaised(OverflowError)
        case Some(s) =>
          match AsUtc(e)
          case None => RangeRaised(OverflowError)
          case Some(u) => if Before(s, u) then RangeOk else EndNotAfterStart(message)
      else if start.zone.Aware? || e.zone.Aware? then RangeRaised(TypeError)
      else if Before(start, e) then RangeOk
      else EndNotAfterStart(message)
  }

  /** What the range check means: it passes exactly when the end is a later
      instant than the start — later in UTC for two aware values, later on
      the wall clock for two naive ones, so equal instants are refused. */
  lemma RangeMeaning(start: DateTime, end: DateTime)
    requires Valid(start) && Valid(end)
    ensures var r := ValidateTimeRange(start, Some(end));
            (start.zone.Naive? && end.zone.Naive? ==>
               (r.RangeOk? <==> WallMicros(start) < WallMicros(end)) && (r.RangeOk? || r.EndNotAfterStart?))
            && (start.zone.Aware? && end.zone.Aware? && InRange(UtcMicros(start)) && InRange(UtcMicros(end)) ==>
               (r.RangeOk? <==> UtcMicros(start) < UtcMicros(end)) && (r.RangeOk? || r.EndNotAfterStart?))
            && (start.zone.Aware? && end.zone.Aware? && !(InRange(UtcMicros(start)) && InRange(UtcMicros(end))) ==>
               r == RangeRaised(OverflowError))
            && (start.zone.Aware? != end.zone.Aware? ==> r == RangeRaised(TypeError))
  {
    if start.zone.Aware? && end.zone.Aware? {
      var a, b := AsUtc(start), AsUtc(end);
      if a.Some? && b.Some? {
        BeforeIsEarlier(a.value, b.value);
      }
    } else {
      BeforeIsEarlier(start, end);
    }
  }
}
