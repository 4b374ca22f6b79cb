/**
 The RFC 3339 printer and parser of A2A timestamps. Arithmetic is over `int`;
 an `i64` intermediate that would overflow is the parser's third result.
 */
module Rfc3339 {
  import opened Text
  import opened Calendar

  const I64_MIN: int := -0x8000_0000_0000_0000
  const I64_MAX: int := 0x7fff_ffff_ffff_ffff
  /** 0000-01-01T00:00:00.000Z. */
  const YEAR_ZERO: int := -62_167_219_200_000

  predicate Fits(x: int) {
    I64_MIN <= x <= I64_MAX
  }

  function ParseI64(s: string): Option<int> {
    ParseInt(s, I64_MIN, I64_MAX)
  }

  // ----- Printing -----

  datatype Clock = Clock(hh: int, mm: int, ss: int, millis: int)

  function PrintDate(d: Date): string {
    PadInt(d.year, 4) + "-" + PadInt(d.month, 2) + "-" + PadInt(d.day, 2)
  }

  function PrintClock(t: Clock): string {
    PadInt(t.hh, 2) + ":" + PadInt(t.mm, 2) + ":" + PadInt(t.ss, 2) + "." + PadInt(t.millis, 3)
  }

  function Print(d: Date, t: Clock): string {
    PrintDate(d) + "T" + PrintClock(t) + "Z"
  }

  function ClockOf(sod: int, millis: int): Clock {
    Clock(sod / 3600, sod % 3600 / 60, sod % 60, millis)
  }

  /** The timestamp of `ms` milliseconds since the Unix epoch. */
  function Format(ms: int): string {
    var secs := ms / 1000;
    Print(CivilFromDays(secs / 86400), ClockOf(secs % 86400, ms % 1000))
  }

  // ----- Parsing -----

  datatype Parsed = Malformed | Overflows | Instant(ms: int)

  datatype Zone = NoZone | ZoneOverflows | Zone(time: string, offset: int)

  function ParseDate(s: string): Option<Date> {
    DateOfFields(Split(s, '-'))
  }

  function DateOfFields(d: seq<string>): Option<Date> {
    if |d| != 3 then None
    else match (ParseI64(d[0]), ParseI64(d[1]), ParseI64(d[2]))
      case (Some(y), Some(m), Some(day)) =>
        if 1 <= m <= 12 && 1 <= day <= 31 then Some(Date(y, m, day)) else None
      case _ => None
  }

  predicate IsSign(c: char) {
    c == '+' || c == '-'
  }

  function ZoneAt(time: string, sign: int, oh: int, om: int): Zone {
    var offset := sign * (oh * 3600 + om * 60) * 1000;
    if Fits(oh * 3600) && Fits(om * 60) && Fits(oh * 3600 + om * 60) && Fits(offset)
    then Zone(time, offset) else ZoneOverflows
  }

  function ParseZone(rest: string): Zone {
    if rest != "" && rest[|rest| - 1] in {'Z', 'z'} then Zone(rest[..|rest| - 1], 0)
    else match RFind(rest, IsSign)
      case None => NoZone
      case Some(at) =>
        var sign := if rest[at] == '-' then -1 else 1;
        match SplitOnce(rest[at + 1..], c => c == ':')
        case None => NoZone
        case Some((oh, om)) =>
          match (ParseI64(oh), ParseI64(om))
          case (Some(oh), Some(om)) =>
            if oh > 23 || om > 59 then NoZone else ZoneAt(rest[..at], sign, oh, om)
          case _ => NoZone
  }

  /** `format!("{frac:0<3}")[..3]` of a digit string, as a number. */
  function FractionMillis(frac: string): nat
    requires AllDigits(frac)
  {
    ValueOf((frac + "000")[..3])
  }

  function ParseClock(time: string): Option<Clock> {
    var (hms, frac) := match SplitOnce(time, c => c == '.')
      case Some((h, f)) => (h, f)
      case None => (time, "");
    ClockOfFields(Split(hms, ':'), frac)
  }

  function ClockOfFields(t: seq<string>, frac: string): Option<Clock> {
    if |t| != 3 || !AllDigits(frac) then None
    else match (ParseI64(t[0]), ParseI64(t[1]), ParseI64(t[2]))
      case (Some(hh), Some(mm), Some(ss)) =>
        if hh > 23 || mm > 59 || ss > 60 then None
        else Some(Clock(hh, mm, ss, FractionMillis(frac)))
      case _ => None
  }

  function Seconds(days: int, t: Clock): int {
    days * 86400 + t.hh * 3600 + t.mm * 60 + t.ss
  }

  function Millis(days: int, t: Clock): int {
    Seconds(days, t) * 1000 + t.millis
  }

  /** Every value the final computation passes through is an `i64`. */
  predicate StaysInI64(yy: int, days: int, t: Clock, offset: int) {
    var day := days * 86400;
    && Fits(yy) && Fits(yy / 400 * 400) && Fits(yy / 400 * 146097) && Fits(days + 719468) && Fits(days)
    && Fits(day) && Fits(t.hh * 3600) && Fits(day + t.hh * 3600) && Fits(t.mm * 60)
    && Fits(day + t.hh * 3600 + t.mm * 60) && Fits(Seconds(days, t)) && Fits(Seconds(days, t) * 1000)
    && Fits(Millis(days, t)) && Fits(Millis(days, t) - offset)
  }

  function MarchYear(d: Date): int {
    if d.month <= 2 then d.year - 1 else d.year
  }

  function Combine(d: Date, t: Clock, offset: int): Parsed {
    var days := DaysFromCivil(d);
    if StaysInI64(MarchYear(d), days, t, offset)
    then Instant(Millis(days, t) - offset) else Overflows
  }

  /** The instant of clock time `t` on day `days`, UTC. */
  function UtcInstant(days: int, t: Clock): Parsed {
    if Millis(days, t) <= I64_MAX then Instant(Millis(days, t)) else Overflows
  }

  predicate IsT(c: char) {
    c == 'T' || c == 't'
  }

  function ParseRest(date: string, rest: string): Parsed {
    match ParseDate(date)
    case None => Malformed
    case Some(d) =>
      match ParseZone(rest)
      case NoZone => Malformed
      case ZoneOverflows => Overflows
      case Zone(time, offset) => AtClock(d, ParseClock(time), offset)
  }

  function AtClock(d: Date, clock: Option<Clock>, offset: int): Parsed {
    match clock
    case None => Malformed
    case Some(t) => Combine(d, t, offset)
  }

  function Parse(raw: string): Parsed {
    match SplitOnce(Trim(raw), IsT)
    case None => Malformed
    case Some((date, rest)) => ParseRest(date, rest)
  }

  // ----- What the parser does with digit strings -----

  lemma DateFields(y: string, m: string, d: string)
    requires '-' !in y && '-' !in m && '-' !in d
    ensures Split(y + "-" + m + "-" + d, '-') == [y, m, d]
  {
    assert y + "-" + m + "-" + d == y + ['-'] + (m + ['-'] + d);
    SplitAt(y, '-', m + ['-'] + d);
    SplitAt(m, '-', d);
    SplitNone(d, '-');
  }

  lemma ClockFields(h: string, m: string, s: string)
    requires AllDigits(h) && AllDigits(m) && AllDigits(s)
    ensures NoneIn(c => c == '.', h + ":" + m + ":" + s)
    ensures Split(h + ":" + m + ":" + s, ':') == [h, m, s]
  {
    assert h + ":" + m + ":" + s == h + [':'] + (m + [':'] + s);
    SplitAt(h, ':', m + [':'] + s);
    SplitAt(m, ':', s);
    SplitNone(s, ':');
  }

  predicate Numeral(s: string) {
    s != "" && AllDigits(s)
  }

  /** `s` is a digit string that denotes `n`. */
  predicate Writes(s: string, n: int) {
    Numeral(s) && ValueOf(s) == n
  }

  predicate WritesDate(y: string, m: string, d: string, date: Date) {
    Writes(y, date.year) && Writes(m, date.month) && Writes(d, date.day)
  }

  predicate WritesClock(h: string, m: string, s: string, f: string, t: Clock) {
    Writes(h, t.hh) && Writes(m, t.mm) && Writes(s, t.ss) && AllDigits(f) && FractionMillis(f) == t.millis
  }

  predicate DateRange(d: Date) {
    0 <= d.year <= I64_MAX && 1 <= d.month <= 12 && 1 <= d.day <= 31
  }

  predicate ClockRange(t: Clock) {
    0 <= t.hh <= 23 && 0 <= t.mm <= 59 && 0 <= t.ss <= 60 && 0 <= t.millis <= 999
  }

  lemma ParseWritten(s: string, n: int)
    requires Writes(s, n) && n <= I64_MAX
    ensures ParseI64(s) == Some(n)
  {
    ParseDigits(s, I64_MIN, I64_MAX);
  }

  lemma ParseDateNumerals(y: string, m: string, d: string, date: Date)
    requires WritesDate(y, m, d, date) && DateRange(date)
    ensures ParseDate(y + "-" + m + "-" + d) == Some(date)
  {
    DateFields(y, m, d);
    ParseWritten(y, date.year);
    ParseWritten(m, date.month);
    ParseWritten(d, date.day);
  }

  lemma ParseClockNumerals(h: string, m: string, s: string, f: string, t: Clock)
    requires WritesClock(h, m, s, f, t) && ClockRange(t)
    ensures ParseClock(h + ":" + m + ":" + s + "." + f) == Some(t)
  {
    var hms := h + ":" + m + ":" + s;
    ClockFields(h, m, s);
    assert hms + "." + f == hms + ['.'] + f;
    SplitOnceAt(hms, '.', f, c => c == '.');
    ParseWritten(h, t.hh);
    ParseWritten(m, t.mm);
    ParseWritten(s, t.ss);
  }

  // ----- Round trip -----

  lemma MillisNumeral(n: nat)
    requires n <= 999
    ensures AllDigits(PadInt(n, 3)) && FractionMillis(PadInt(n, 3)) == n
  {
    assert n >= 10 ==> |Digits(n)| == |Digits(n / 10)| + 1;
    assert n >= 100 ==> |Digits(n / 10)| == |Digits(n / 100)| + 1;
    var f := PadInt(n, 3);
    PadIntDigits(n, 3);
    assert (f + "000")[..3] == f;
  }

  lemma ParsePrintedClock(t: Clock)
    requires ClockRange(t)
    ensures ParseClock(PrintClock(t)) == Some(t)
  {
    var h, m, s, f := PadInt(t.hh, 2), PadInt(t.mm, 2), PadInt(t.ss, 2), PadInt(t.millis, 3);
    PadIntDigits(t.hh, 2);
    PadIntDigits(t.mm, 2);
    PadIntDigits(t.ss, 2);
    MillisNumeral(t.millis);
    ParseClockNumerals(h, m, s, f, t);
  }

  lemma SignedDate(unsigned: string, m: string, d: string)
    ensures ParseDate("-" + unsigned + "-" + m + "-" + d) == None
  {
    var after := unsigned + "-" + m + "-" + d;
    assert "-" + unsigned + "-" + m + "-" + d == "" + ['-'] + after;
    SplitAt("", '-', after);
  }

  /** A printed date parses back exactly when its year has no sign. */
  lemma ParsePrintedDate(d: Date)
    requires Valid(d) && d.year <= I64_MAX
    ensures ParseDate(PrintDate(d)) == if d.year >= 0 then Some(d) else None
  {
    var y, m, day := PadInt(d.year, 4), PadInt(d.month, 2), PadInt(d.day, 2);
    if d.year >= 0 {
      PadIntDigits(d.month, 2);
      PadIntDigits(d.day, 2);
      PadIntDigits(d.year, 4);
      ParseDateNumerals(y, m, day, d);
    } else {
      SignedNumeral(d.year, 4);
      SignedDate(y[1..], m, day);
    }
  }

  lemma SignedNumeral(n: int, width: nat)
    requires n < 0
    ensures PadInt(n, width) == "-" + PadInt(n, width)[1..]
  {
  }

  lemma NumeralChars(n: int, width: nat)
    ensures PadInt(n, width) != ""
    ensures forall i :: 0 <= i < |PadInt(n, width)| ==> IsDigit(PadInt(n, width)[i]) || PadInt(n, width)[i] == '-'
  {
  }

  lemma DateChars(d: Date)
    ensures PrintDate(d) != "" && !IsWhitespace(PrintDate(d)[0]) && NoneIn(IsT, PrintDate(d))
  {
    NumeralChars(d.year, 4);
    NumeralChars(d.month, 2);
    NumeralChars(d.day, 2);
    assert PrintDate(d)[0] == PadInt(d.year, 4)[0];
  }

  /** What a timestamp in UTC parses to, from what its two halves parse to. */
  lemma ParseHalves(date: string, time: string)
    requires date != "" && !IsWhitespace(date[0]) && NoneIn(IsT, date)
    ensures Parse(date + "T" + time + "Z") == AtDate(ParseDate(date), ParseClock(time), 0)
  {
    ParseUtc(date, time);
  }

  lemma ParsePrinted(d: Date, t: Clock)
    requires Valid(d) && d.year <= I64_MAX && ClockRange(t)
    ensures Parse(Print(d, t)) == if d.year >= 0 then Combine(d, t, 0) else Malformed
  {
    var date, time := PrintDate(d), PrintClock(t);
    assert date != "" && !IsWhitespace(date[0]) && NoneIn(IsT, date) by { DateChars(d); }
    assert ParseDate(date) == if d.year >= 0 then Some(d) else None by { ParsePrintedDate(d); }
    assert ParseClock(time) == Some(t) by { ParsePrintedClock(t); }
    ParseHalves(date, time);
  }

  /** A timestamp that ends in `Z` is its date and its clock time. */
  lemma ParseUtc(date: string, time: string)
    requires date != "" && !IsWhitespace(date[0]) && NoneIn(IsT, date)
    ensures Parse(date + "T" + time + "Z") == ParseRest(date, time + "Z")
    ensures ParseZone(time + "Z") == Zone(time, 0)
  {
    var s := date + "T" + time + "Z";
    assert s[0] == date[0] && s[|s| - 1] == 'Z';
    TrimNothing(s);
    assert s == date + ['T'] + (time + "Z");
    SplitOnceAt(date, 'T', time + "Z", IsT);
    assert (time + "Z")[..|time|] == time;
  }

  /** The date's era starts at most an era before the date. */
  lemma EraOfDate(d: Date)
    requires 1 <= d.month <= 12 && 1 <= d.day <= 31
    ensures 0 <= DaysFromCivil(d) + 719468 - MarchYear(d) / 400 * 146097 <= 146500
  {
    var yoe := MarchYear(d) - MarchYear(d) / 400 * 400;
    assert 0 <= EraDay(yoe) <= 146000;
  }

  /** From year 0 on, a clock time of day in UTC overflows exactly when the instant itself does. */
  lemma NoOverflow(yy: int, days: int, t: Clock)
    requires 0 <= days + 719468 - yy / 400 * 146097 <= 146500
    requires ClockRange(t) && YEAR_ZERO <= Millis(days, t)
    ensures Millis(days, t) <= I64_MAX <==> StaysInI64(yy, days, t, 0)
  {
  }

  lemma CombineUtc(d: Date, t: Clock)
    requires DateRange(d) && ClockRange(t)
    ensures Combine(d, t, 0) == UtcInstant(DaysFromCivil(d), t)
  {
    EraOfDate(d);
    YearZeroDays(d);
    NoOverflow(MarchYear(d), DaysFromCivil(d), t);
  }

  lemma YearZeroDays(d: Date)
    requires DateRange(d)
    ensures DaysFromCivil(d) >= -719528
  {
    DayOfMonth(d);
    SignOfDate(d.(day := 1));
  }

  lemma SplitInstant(ms: int)
    ensures
      var t := ClockOf(ms / 1000 % 86400, ms % 1000);
      ClockRange(t) && t.ss <= 59 && Millis(ms / 1000 / 86400, t) == ms
  {
    var sod := ms / 1000 % 86400;
    assert sod == sod / 3600 * 3600 + sod % 3600 / 60 * 60 + sod % 60;
  }

  lemma SignOfDate(d: Date)
    requires Valid(d)
    ensures d.year >= 0 <==> DaysFromCivil(d) >= -719528
  {
    var zero := Date(0, 1, 1);
    assert DaysFromCivil(zero) == -719528;
    DaysInOrder(d, zero);
    SignByOrder(d, zero, DaysFromCivil(d), -719528);
  }

  lemma SignByOrder(d: Date, zero: Date, n: int, z: int)
    requires Valid(d) && zero == Date(0, 1, 1) && (Before(d, zero) <==> n < z)
    ensures d.year >= 0 <==> n >= z
  {
  }

  lemma YearBound(d: Date)
    requires Valid(d) && -1_000_000_000_000 <= DaysFromCivil(d) <= 1_000_000_000_000
    ensures d.year <= I64_MAX
  {
    EraOfDate(d);
  }

  /**
   Every `i64` instant from year 0 on is printed as a timestamp that parses back to it, years of
   five and more digits included; an earlier instant prints a signed year, which never parses.
   */
  lemma RoundTrip(ms: int)
    requires Fits(ms)
    ensures Parse(Format(ms)) == if ms >= YEAR_ZERO then Instant(ms) else Malformed
  {
    var days := ms / 1000 / 86400;
    var d, t := CivilFromDays(days), ClockOf(ms / 1000 % 86400, ms % 1000);
    TwoSidedInverse(days, d);
    SignOfDate(d);
    SplitInstant(ms);
    YearBound(d);
    ParsePrinted(d, t);
    if ms >= YEAR_ZERO { CombineUtc(d, t); }
  }

  // ----- Order -----

  predicate Earlier(d1: Date, t1: Clock, d2: Date, t2: Clock) {
    || Before(d1, d2)
    || (d1 == d2 && (t1.hh < t2.hh || (t1.hh == t2.hh && (t1.mm < t2.mm || (t1.mm == t2.mm
        && (t1.ss < t2.ss || (t1.ss == t2.ss && t1.millis < t2.millis)))))))
  }

  lemma InstantsInOrder(d1: Date, t1: Clock, d2: Date, t2: Clock)
    requires Valid(d1) && ClockRange(t1) && t1.ss <= 59 && Valid(d2) && ClockRange(t2) && t2.ss <= 59
    ensures Earlier(d1, t1, d2, t2) <==> Millis(DaysFromCivil(d1), t1) < Millis(DaysFromCivil(d2), t2)
  {
    DaysInOrder(d1, d2);
    DaysInOrder(d2, d1);
    assert d1 == d2 || Before(d1, d2) || Before(d2, d1);
    MillisInOrder(DaysFromCivil(d1), t1, DaysFromCivil(d2), t2);
  }

  /** UTC timestamps of valid dates, however their numerals are written, parse in calendar order. */
  lemma ParseKeepsOrder(a: string, d1: Date, t1: Clock, b: string, d2: Date, t2: Clock)
    requires WritesUtc(a, d1, t1) && Valid(d1) && DateRange(d1) && ClockRange(t1) && t1.ss <= 59
    requires WritesUtc(b, d2, t2) && Valid(d2) && DateRange(d2) && ClockRange(t2) && t2.ss <= 59
    requires Parse(a).Instant? && Parse(b).Instant?
    ensures Earlier(d1, t1, d2, t2) <==> Parse(a).ms < Parse(b).ms
  {
    ParseMeansCalendar(a, d1, t1);
    ParseMeansCalendar(b, d2, t2);
    DayOfMonth(d1);
    DayOfMonth(d2);
    InstantsInOrder(d1, t1, d2, t2);
  }

  lemma MillisInOrder(n1: int, t1: Clock, n2: int, t2: Clock)
    requires ClockRange(t1) && t1.ss <= 59 && ClockRange(t2) && t2.ss <= 59
    ensures n1 < n2 ==> Millis(n1, t1) < Millis(n2, t2)
    ensures n1 == n2 ==> (Millis(n1, t1) < Millis(n2, t2)
      <==> t1.hh < t2.hh || (t1.hh == t2.hh && (t1.mm < t2.mm || (t1.mm == t2.mm
           && (t1.ss < t2.ss || (t1.ss == t2.ss && t1.millis < t2.millis))))))
  {
  }

  // ----- What a timestamp means -----

  /** Day number of the first of the month. */
  function FirstOf(y: int, m: int): int {
    DaysFromCivil(Date(y, m, 1))
  }

  lemma FirstOfIsCalendar(y: int, m: int)
    requires 1 <= m <= 12
    ensures DateOf(FirstOf(y, m)) == Date(y, m, 1)
  {
    CivilOfDays(Date(y, m, 1));
    ClosedFormIsCalendar(FirstOf(y, m));
  }

  ghost predicate IsDateText(text: string, date: Date) {
    exists y, m, d :: WritesDate(y, m, d, date) && text == y + "-" + m + "-" + d
  }

  /** A clock time in numerals of any length, with a fraction or without one. */
  ghost predicate IsClockText(text: string, t: Clock) {
    exists h, m, s, f ::
      && WritesClock(h, m, s, f, t)
      && (text == h + ":" + m + ":" + s + "." + f || (f == "" && text == h + ":" + m + ":" + s))
  }

  /** The text writes the date and the clock time in UTC. */
  ghost predicate WritesUtc(text: string, date: Date, t: Clock) {
    exists day, time :: IsDateText(day, date) && IsClockText(time, t) && text == day + "T" + time + "Z"
  }

  lemma ParseDateText(text: string, date: Date)
    requires IsDateText(text, date) && DateRange(date)
    ensures ParseDate(text) == Some(date)
    ensures text != "" && !IsWhitespace(text[0]) && NoneIn(IsT, text)
  {
    var y, m, d :| WritesDate(y, m, d, date) && text == y + "-" + m + "-" + d;
    ParseDateNumerals(y, m, d, date);
    NumeralDateChars(y, m, d);
  }

  lemma ParseWholeSeconds(h: string, m: string, s: string, t: Clock)
    requires WritesClock(h, m, s, "", t) && ClockRange(t)
    ensures ParseClock(h + ":" + m + ":" + s) == Some(t)
  {
    ClockFields(h, m, s);
    SplitOnceNone(h + ":" + m + ":" + s, c => c == '.');
    ParseWritten(h, t.hh);
    ParseWritten(m, t.mm);
    ParseWritten(s, t.ss);
  }

  lemma ParseClockText(text: string, t: Clock)
    requires IsClockText(text, t) && ClockRange(t)
    ensures ParseClock(text) == Some(t)
  {
    var h, m, s, f :|
      && WritesClock(h, m, s, f, t)
      && (text == h + ":" + m + ":" + s + "." + f || (f == "" && text == h + ":" + m + ":" + s));
    if text == h + ":" + m + ":" + s + "." + f {
      ParseClockNumerals(h, m, s, f, t);
    } else {
      ParseWholeSeconds(h, m, s, t);
    }
  }

  /**
   A timestamp of numerals in range, with a fraction or without, means: the first of the month in the
   stepped calendar, plus the days, plus the clock time. A day past the month's end runs into the next
   month.
   */
  lemma ParseMeansCalendar(text: string, date: Date, t: Clock)
    requires WritesUtc(text, date, t) && DateRange(date) && ClockRange(t)
    ensures Parse(text) == UtcInstant(FirstOf(date.year, date.month) + date.day - 1, t)
    ensures DateOf(FirstOf(date.year, date.month)) == Date(date.year, date.month, 1)
  {
    var day, time :| IsDateText(day, date) && IsClockText(time, t) && text == day + "T" + time + "Z";
    ParseDateText(day, date);
    ParseClockText(time, t);
    ParsedUtc(day, time, date, t);
    FirstOfIsCalendar(date.year, date.month);
  }

  lemma ParsedUtc(date: string, time: string, d: Date, t: Clock)
    requires date != "" && !IsWhitespace(date[0]) && NoneIn(IsT, date)
    requires ParseDate(date) == Some(d) && ParseClock(time) == Some(t) && DateRange(d) && ClockRange(t)
    ensures Parse(date + "T" + time + "Z") == UtcInstant(FirstOf(d.year, d.month) + d.day - 1, t)
  {
    ParseHalves(date, time);
    CombineUtc(d, t);
    DayOfMonth(d);
  }

  lemma NumeralDateChars(y: string, m: string, d: string)
    requires Numeral(y) && Numeral(m) && Numeral(d)
    ensures var s := y + "-" + m + "-" + d; s != "" && !IsWhitespace(s[0]) && NoneIn(IsT, s)
  {
    assert (y + "-" + m + "-" + d)[0] == y[0] && IsDigit(y[0]);
  }

  function DigitAt(s: string, i: nat): nat
    requires AllDigits(s)
  {
    if i < |s| then DigitValue(s[i]) else 0
  }

  /** A fraction counts its first three digits, missing ones as zero. */
  lemma FractionIsThousandths(f: string)
    requires AllDigits(f)
    ensures FractionMillis(f) == 100 * DigitAt(f, 0) + 10 * DigitAt(f, 1) + DigitAt(f, 2)
  {
    var g := (f + "000")[..3];
    assert |g| == 3 && forall i :: 0 <= i < 3 ==> DigitValue(g[i]) == DigitAt(f, i);
    assert g[..2][..1] == g[..1] && g[..1][..0] == "";
    assert ValueOf(g) == 10 * ValueOf(g[..2]) + DigitValue(g[2]);
    assert ValueOf(g[..2]) == 10 * ValueOf(g[..1]) + DigitValue(g[1]);
    assert ValueOf(g[..1]) == DigitValue(g[0]);
  }

  // ----- Offsets and fractions, whatever precedes them -----

  /** Where a visible tail is appended to a timestamp, only the part after the `T` sees it. */
  lemma ParseTail(local: string, tail: string)
    requires tail != "" && NoneIn(IsWhitespace, tail) && NoneIn(IsT, tail)
    ensures Parse(local + tail)
         == match SplitOnce(TrimStart(local), IsT)
            case None => Malformed
            case Some((date, rest)) => ParseRest(date, rest + tail)
  {
    TrimVisibleEnd(local, tail);
    SplitOnceAppend(TrimStart(local), tail, IsT);
  }

  lemma ZoneFields(time: string, sign: char, oh: string, om: string)
    requires IsSign(sign) && Numeral(oh) && Numeral(om)
    ensures
      var rest := time + ([sign] + oh + ":" + om);
      && rest[|rest| - 1] !in {'Z', 'z'}
      && RFind(rest, IsSign) == Some(|time|) && rest[|time|] == sign && rest[..|time|] == time
      && SplitOnce(rest[|time| + 1..], c => c == ':') == Some((oh, om))
  {
    var zone := oh + ":" + om;
    var rest := time + ([sign] + oh + ":" + om);
    assert rest == time + [sign] + zone && rest[|rest| - 1] == om[|om| - 1] && IsDigit(om[|om| - 1]);
    RFindAt(time, sign, zone, IsSign);
    assert rest[|time| + 1..] == zone && zone == oh + [':'] + om;
    SplitOnceAt(oh, ':', om, c => c == ':');
  }

  lemma ZoneOf(time: string, sign: char, oh: string, om: string)
    requires IsSign(sign) && Numeral(oh) && Numeral(om) && ValueOf(oh) <= 23 && ValueOf(om) <= 59
    ensures ParseZone(time + ([sign] + oh + ":" + om)) == Zone(time, OffsetMs(sign, oh, om))
  {
    ZoneFields(time, sign, oh, om);
    ParseWritten(oh, ValueOf(oh));
    ParseWritten(om, ValueOf(om));
  }

  function OffsetMs(sign: char, oh: string, om: string): int
    requires AllDigits(oh) && AllDigits(om)
  {
    (if sign == '-' then -1 else 1) * (60 * ValueOf(oh) + ValueOf(om)) * 60_000
  }

  /** The offset is the last thing subtracted, so it moves the result or overflows it. */
  lemma CombineShifts(d: Date, t: Clock, offset: int)
    ensures Combine(d, t, offset) == Moved(Combine(d, t, 0), -offset)
  {
  }

  function Moved(p: Parsed, delta: int): Parsed {
    match p
    case Instant(ms) => if Fits(ms + delta) then Instant(ms + delta) else Overflows
    case other => other
  }

  /** `±hh:mm` shifts the instant of the same local time in UTC by exactly that offset. */
  lemma OffsetShifts(local: string, sign: char, oh: string, om: string)
    requires IsSign(sign) && Numeral(oh) && Numeral(om) && ValueOf(oh) <= 23 && ValueOf(om) <= 59
    ensures Parse(local + ([sign] + oh + ":" + om)) == Moved(Parse(local + "Z"), -OffsetMs(sign, oh, om))
  {
    var tail := [sign] + oh + ":" + om;
    ParseTail(local, tail);
    ParseTail(local, "Z");
    var cut := SplitOnce(TrimStart(local), IsT);
    if cut.Some? { RestShifts(cut.value.0, cut.value.1, sign, oh, om); }
  }

  /** A clock time on a date, if both are there. */
  function AtDate(date: Option<Date>, clock: Option<Clock>, offset: int): Parsed {
    match date
    case None => Malformed
    case Some(d) => AtClock(d, clock, offset)
  }

  lemma RestAt(date: string, rest: string, time: string, offset: int)
    requires ParseZone(rest) == Zone(time, offset)
    ensures ParseRest(date, rest) == AtDate(ParseDate(date), ParseClock(time), offset)
  {
  }

  lemma RestUtc(date: string, time: string)
    ensures ParseRest(date, time + "Z") == AtDate(ParseDate(date), ParseClock(time), 0)
  {
    assert (time + "Z")[..|time|] == time;
  }

  lemma RestShifts(date: string, time: string, sign: char, oh: string, om: string)
    requires IsSign(sign) && Numeral(oh) && Numeral(om) && ValueOf(oh) <= 23 && ValueOf(om) <= 59
    ensures ParseRest(date, time + ([sign] + oh + ":" + om))
         == Moved(ParseRest(date, time + "Z"), -OffsetMs(sign, oh, om))
  {
    var offset := OffsetMs(sign, oh, om);
    ZoneOf(time, sign, oh, om);
    RestAt(date, time + ([sign] + oh + ":" + om), time, offset);
    RestUtc(date, time);
    DateShifts(ParseDate(date), ParseClock(time), offset);
  }

  lemma DateShifts(date: Option<Date>, clock: Option<Clock>, offset: int)
    ensures AtDate(date, clock, offset) == Moved(AtDate(date, clock, 0), -offset)
  {
    if date.Some? && clock.Some? { CombineShifts(date.value, clock.value, offset); }
  }

  lemma ClockFraction(time: string, f: string)
    requires '.' !in time && AllDigits(f)
    ensures ParseClock(time + "." + f)
         == match ParseClock(time) case None => None case Some(t) => Some(t.(millis := FractionMillis(f)))
    ensures ParseClock(time).Some? ==> ParseClock(time).value.millis == 0
  {
    assert time + "." + f == time + ['.'] + f;
    SplitOnceAt(time, '.', f, c => c == '.');
    SplitOnceNone(time, c => c == '.');
    FractionIsThousandths("");
  }

  /** A fraction adds its milliseconds to the same timestamp without one. */
  lemma FractionAdds(local: string, f: string)
    requires '.' !in local && AllDigits(f)
    ensures Parse(local + ("." + f + "Z")) == Moved(Parse(local + "Z"), FractionMillis(f))
  {
    var tail := "." + f + "Z";
    ParseTail(local, tail);
    ParseTail(local, "Z");
    var cut := SplitOnce(TrimStart(local), IsT);
    if cut.Some? {
      TrimStartKeeps(local, '.');
      SplitOnceKeeps(TrimStart(local), IsT, '.');
      RestFraction(cut.value.0, cut.value.1, f);
    }
  }

  lemma RestFraction(date: string, time: string, f: string)
    requires '.' !in time && AllDigits(f)
    ensures ParseRest(date, time + ("." + f + "Z")) == Moved(ParseRest(date, time + "Z"), FractionMillis(f))
  {
    assert time + ("." + f + "Z") == (time + "." + f) + "Z";
    RestUtc(date, time + "." + f);
    RestUtc(date, time);
    ClockFraction(time, f);
    FractionShifts(ParseDate(date), ParseClock(time), FractionMillis(f));
  }

  lemma FractionShifts(date: Option<Date>, clock: Option<Clock>, millis: nat)
    requires clock.Some? ==> clock.value.millis == 0
    ensures AtDate(date, if clock.Some? then Some(clock.value.(millis := millis)) else None, 0)
         == Moved(AtDate(date, clock, 0), millis)
  {
    if date.Some? && clock.Some? { MillisShift(date.value, clock.value, millis); }
  }

  lemma MillisShift(d: Date, t: Clock, millis: nat)
    requires t.millis == 0
    ensures Combine(d, t.(millis := millis), 0) == Moved(Combine(d, t, 0), millis)
  {
  }

  lemma SplitOnceKeeps(s: string, p: char -> bool, c: char)
    requires c !in s
    ensures SplitOnce(s, p).Some? ==> c !in SplitOnce(s, p).value.1
  {
  }

  lemma TrimStartKeeps(s: string, c: char)
    requires c !in s
    ensures c !in TrimStart(s)
  {
  }
}
