/**
 * Timestamps of fares: the three layouts `parse_datetime` tries with
 * `datetime.strptime`, the naive `datetime` value it produces, and the exact
 * arithmetic Python uses when two such values are subtracted.
 *
 * A layout is a sequence of directives. Each numeric directive reads the run of
 * ASCII digits in front of it; in the three layouts every numeric directive is
 * followed by a non-digit literal or by the end of the text, and under that
 * condition this reading accepts exactly what the strptime regular expression
 * for the directive accepts (see `Delimited`).
 */
module DateTimes {
  import opened Common

  /** A naive `datetime` value. */
  datatype DateTime = DateTime(year: int, month: int, day: int,
                               hour: int, minute: int, second: int, microsecond: int)

  /** The error `parse_datetime` raises when no layout accepts the text. */
  datatype ParseError = UnrecognizedDate(text: string)

  const MICROS_PER_SECOND: int := 1000000
  const MICROS_PER_DAY: int := 86400 * MICROS_PER_SECOND

  // ---------------------------------------------------------------------------
  // The proleptic Gregorian calendar, as Python's `datetime` module counts it
  // ---------------------------------------------------------------------------

  predicate IsLeap(y: int) {
    y % 4 == 0 && (y % 100 != 0 || y % 400 == 0)
  }

  function DaysInYear(y: int): int {
    if IsLeap(y) then 366 else 365
  }

  function DaysInMonth(y: int, m: int): (n: int)
    requires 1 <= m <= 12
    ensures 28 <= n <= 31
  {
    if m == 2 && IsLeap(y) then 29
    else [31, 28, 31, 30, 31, 30, 31, 31, 30, 31, 30, 31][m - 1]
  }

  /** Days in the years before `y` (Python's `_days_before_year`). */
  function DaysBeforeYear(y: int): int
    requires y >= 1
  {
    var z := y - 1;
    z * 365 + z / 4 - z / 100 + z / 400
  }

  /** Days in the months of year `y` before month `m` (Python's `_days_before_month`). */
  function DaysBeforeMonth(y: int, m: int): int
    requires 1 <= m <= 12
  {
    [0, 31, 59, 90, 120, 151, 181, 212, 243, 273, 304, 334][m - 1]
    + (if m > 2 && IsLeap(y) then 1 else 0)
  }

  /** The proleptic Gregorian ordinal: 0001-01-01 is day 1 (Python's `_ymd2ord`). */
  function Ordinal(y: int, m: int, d: int): int
    requires y >= 1 && 1 <= m <= 12
  {
    DaysBeforeYear(y) + DaysBeforeMonth(y, m) + d
  }

  /** A value the `datetime` constructor accepts. */
  predicate Valid(dt: DateTime) {
    && 1 <= dt.year <= 9999
    && 1 <= dt.month <= 12
    && 1 <= dt.day <= DaysInMonth(dt.year, dt.month)
    && 0 <= dt.hour < 24
    && 0 <= dt.minute < 60
    && 0 <= dt.second < 60
    && 0 <= dt.microsecond < MICROS_PER_SECOND
  }

  function TimeOfDay(dt: DateTime): int {
    ((dt.hour * 60 + dt.minute) * 60 + dt.second) * MICROS_PER_SECOND + dt.microsecond
  }

  /** Microseconds since the start of day 0; the difference of two values is
      the exact length of the `timedelta` Python computes for `b - a`. */
  function Micros(dt: DateTime): int
    requires Valid(dt)
  {
    Ordinal(dt.year, dt.month, dt.day) * MICROS_PER_DAY + TimeOfDay(dt)
  }

  /** Chronological order: lexicographic on the fields. */
  predicate Before(a: DateTime, b: DateTime) {
    if a.year != b.year then a.year < b.year
    else if a.month != b.month then a.month < b.month
    else if a.day != b.day then a.day < b.day
    else if a.hour != b.hour then a.hour < b.hour
    else if a.minute != b.minute then a.minute < b.minute
    else if a.second != b.second then a.second < b.second
    else a.microsecond < b.microsecond
  }

  /** The date that follows (y, m, d) in the calendar. */
  function NextDate(y: int, m: int, d: int): (r: (int, int, int))
    requires 1 <= m <= 12
  {
    if d < DaysInMonth(y, m) then (y, m, d + 1)
    else if m < 12 then (y, m + 1, 1)
    else (y + 1, 1, 1)
  }

  lemma YearLength(y: int)
    requires y >= 1
    ensures DaysBeforeYear(y + 1) == DaysBeforeYear(y) + DaysInYear(y)
  {
    var z := y - 1;
    assert (z + 1) / 4 - z / 4 == if y % 4 == 0 then 1 else 0;
    assert (z + 1) / 100 - z / 100 == if y % 100 == 0 then 1 else 0;
    assert (z + 1) / 400 - z / 400 == if y % 400 == 0 then 1 else 0;
  }

  lemma MonthLength(y: int, m: int)
    requires 1 <= m < 12
    ensures DaysBeforeMonth(y, m + 1) == DaysBeforeMonth(y, m) + DaysInMonth(y, m)
  {
  }

  /** Day 1 is 0001-01-01. */
  lemma OrdinalEpoch()
    ensures Ordinal(1, 1, 1) == 1
  {
  }

  /** Counting days one at a time: day 1 is 0001-01-01 and each next date is
      one more, so `Ordinal` is the position of a date in the calendar. */
  lemma OrdinalCountsDays(y: int, m: int, d: int)
    requires y >= 1 && 1 <= m <= 12 && 1 <= d <= DaysInMonth(y, m)
    ensures var next := NextDate(y, m, d);
            1 <= next.1 <= 12 && 1 <= next.2 <= DaysInMonth(next.0, next.1) &&
            Ordinal(next.0, next.1, next.2) == Ordinal(y, m, d) + 1
  {
    if d < DaysInMonth(y, m) {
      assert NextDate(y, m, d) == (y, m, d + 1);
    } else if m < 12 {
      assert NextDate(y, m, d) == (y, m + 1, 1);
      MonthLength(y, m);
    } else {
      assert NextDate(y, m, d) == (y + 1, 1, 1);
      YearLength(y);
      assert DaysBeforeMonth(y, 12) + 31 == DaysInYear(y);
      assert DaysBeforeMonth(y + 1, 1) == 0;
    }
  }

  lemma DaysBeforeYearMonotone(a: int, b: int)
    requires 1 <= a < b
    ensures DaysBeforeYear(a) + DaysInYear(a) <= DaysBeforeYear(b)
    decreases b - a
  {
    YearLength(a);
    if a + 1 < b {
      DaysBeforeYearMonotone(a + 1, b);
    }
  }

  lemma DaysBeforeMonthMonotone(y: int, a: int, b: int)
    requires 1 <= a < b <= 12
    ensures DaysBeforeMonth(y, a) + DaysInMonth(y, a) <= DaysBeforeMonth(y, b)
  {
  }

  lemma OrdinalOrder(a: DateTime, b: DateTime)
    requires Valid(a) && Valid(b)
    requires a.year < b.year || (a.year == b.year && (a.month < b.month || (a.month == b.month && a.day < b.day)))
    ensures Ordinal(a.year, a.month, a.day) < Ordinal(b.year, b.month, b.day)
  {
    if a.year < b.year {
      assert DaysBeforeMonth(a.year, a.month) + a.day <= DaysInYear(a.year) by {
        if a.month < 12 {
          DaysBeforeMonthMonotone(a.year, a.month, 12);
        }
      }
      DaysBeforeYearMonotone(a.year, b.year);
    } else if a.month < b.month {
      DaysBeforeMonthMonotone(a.year, a.month, b.month);
    }
  }

  /** Numbers written as `x * k + r` with `0 <= r < k` compare as the pairs `(x, r)`. */
  lemma PlaceOrder(x1: int, r1: int, x2: int, r2: int, k: int)
    requires k > 0 && 0 <= r1 < k && 0 <= r2 < k
    ensures x1 * k + r1 < x2 * k + r2 <==> x1 < x2 || (x1 == x2 && r1 < r2)
    ensures x1 * k + r1 == x2 * k + r2 <==> x1 == x2 && r1 == r2
  {
    if x1 < x2 {
      MulAtLeast(x2 - x1, k);
      assert x2 * k == x1 * k + (x2 - x1) * k;
    } else if x2 < x1 {
      MulAtLeast(x1 - x2, k);
      assert x1 * k == x2 * k + (x1 - x2) * k;
    }
  }

  lemma {:induction false} MulAtLeast(d: int, k: int)
    requires d >= 1 && k > 0
    ensures d * k >= k
    decreases d
  {
    if d > 1 {
      MulAtLeast(d - 1, k);
      assert d * k == (d - 1) * k + k;
    }
  }

  function ClockSeconds(dt: DateTime): int {
    (dt.hour * 60 + dt.minute) * 60 + dt.second
  }

  /** The time of day of a valid value is less than one day, and orders the
      clock fields lexicographically. */
  lemma ClockOrder(a: DateTime, b: DateTime)
    requires Valid(a) && Valid(b)
    ensures 0 <= TimeOfDay(a) < MICROS_PER_DAY && 0 <= TimeOfDay(b) < MICROS_PER_DAY
    ensures TimeOfDay(a) < TimeOfDay(b) <==>
              if a.hour != b.hour then a.hour < b.hour
              else if a.minute != b.minute then a.minute < b.minute
              else if a.second != b.second then a.second < b.second
              else a.microsecond < b.microsecond
    ensures TimeOfDay(a) == TimeOfDay(b) <==>
              a.hour == b.hour && a.minute == b.minute && a.second == b.second && a.microsecond == b.microsecond
  {
    assert TimeOfDay(a) == ClockSeconds(a) * MICROS_PER_SECOND + a.microsecond;
    assert TimeOfDay(b) == ClockSeconds(b) * MICROS_PER_SECOND + b.microsecond;
    PlaceOrder(a.hour, a.minute, b.hour, b.minute, 60);
    PlaceOrder(a.hour * 60 + a.minute, a.second, b.hour * 60 + b.minute, b.second, 60);
    PlaceOrder(ClockSeconds(a), a.microsecond, ClockSeconds(b), b.microsecond, MICROS_PER_SECOND);
    PlaceOrder(ClockSeconds(a), a.microsecond, 86400, 0, MICROS_PER_SECOND);
    PlaceOrder(ClockSeconds(b), b.microsecond, 86400, 0, MICROS_PER_SECOND);
  }

  /** Microsecond counts order timestamps exactly as the calendar does. */
  lemma MicrosOrder(a: DateTime, b: DateTime)
    requires Valid(a) && Valid(b)
    ensures Before(a, b) <==> Micros(a) < Micros(b)
    ensures Micros(a) == Micros(b) <==> a == b
  {
    ClockOrder(a, b);
    var oa := Ordinal(a.year, a.month, a.day);
    var ob := Ordinal(b.year, b.month, b.day);
    PlaceOrder(oa, TimeOfDay(a), ob, TimeOfDay(b), MICROS_PER_DAY);
    var sameDate := a.year == b.year && a.month == b.month && a.day == b.day;
    if !sameDate {
      if a.year < b.year || (a.year == b.year && (a.month < b.month || (a.month == b.month && a.day < b.day))) {
        OrdinalOrder(a, b);
      } else {
        OrdinalOrder(b, a);
      }
    }
  }

  // ---------------------------------------------------------------------------
  // strptime layouts
  // ---------------------------------------------------------------------------

  /** One strptime directive: %Y %m %d %H %M %S %f, or a literal character. */
  datatype Directive = Year | Month | Day | Hour | Minute | Second | Fraction | Lit(c: char)

  /** "%Y-%m-%dT%H:%M:%S.%fZ" */
  const FRACTIONAL_UTC: seq<Directive> :=
    [Year, Lit('-'), Month, Lit('-'), Day, Lit('T'), Hour, Lit(':'), Minute, Lit(':'), Second,
     Lit('.'), Fraction, Lit('Z')]
  /** "%Y-%m-%dT%H:%M:%S" */
  const WHOLE_SECOND: seq<Directive> :=
    [Year, Lit('-'), Month, Lit('-'), Day, Lit('T'), Hour, Lit(':'), Minute, Lit(':'), Second]
  /** "%Y-%m-%d" */
  const DATE_ONLY: seq<Directive> := [Year, Lit('-'), Month, Lit('-'), Day]

  /** The layouts `parse_datetime` tries, in order. */
  const FORMATS: seq<seq<Directive>> := [FRACTIONAL_UTC, WHOLE_SECOND, DATE_ONLY]

  /** The fields strptime collects, starting from its defaults (1900-01-01 00:00:00). */
  datatype Fields = Fields(year: int, month: int, day: int,
                           hour: int, minute: int, second: int, microsecond: int)

  const DEFAULT_FIELDS: Fields := Fields(1900, 1, 1, 0, 0, 0, 0)

  /** What the directive regular expressions allow each field to hold. */
  predicate InRange(f: Fields) {
    && 0 <= f.year <= 9999 && 1 <= f.month <= 12 && 1 <= f.day <= 31
    && 0 <= f.hour <= 23 && 0 <= f.minute <= 59 && 0 <= f.second <= 61
    && 0 <= f.microsecond <= 999999
  }

  predicate IsDigit(c: char) {
    '0' <= c <= '9'
  }

  predicate AllDigits(s: string) {
    forall i :: 0 <= i < |s| ==> IsDigit(s[i])
  }

  /** Length of the run of digits at the front of `s`. */
  function DigitRun(s: string): (n: nat)
    ensures n <= |s| && AllDigits(s[..n])
    ensures n < |s| ==> !IsDigit(s[n])
  {
    if s != [] && IsDigit(s[0]) then
      var k := DigitRun(s[1..]);
      assert s[..1 + k] == [s[0]] + s[1..][..k];
      1 + k
    else 0
  }

  /** The decimal value of a string of digits. */
  function Value(s: string): nat
    requires AllDigits(s)
  {
    if s == [] then 0 else Value(s[..|s| - 1]) * 10 + (s[|s| - 1] as int - '0' as int)
  }

  function Pow10(k: nat): (r: nat)
    ensures r >= 1
  {
    if k == 0 then 1 else 10 * Pow10(k - 1)
  }

  /** A number of `minLen` to `maxLen` digits whose value lies in `lo..hi`;
      the value and the number of characters read. */
  function ReadNumber(s: string, minLen: nat, maxLen: nat, lo: int, hi: int): (r: Option<(int, nat)>)
    ensures r.Some? ==> lo <= r.value.0 <= hi && minLen <= r.value.1 <= maxLen && r.value.1 <= |s|
  {
    var n := DigitRun(s);
    if minLen <= n <= maxLen && lo <= Value(s[..n]) <= hi then Some((Value(s[..n]), n)) else None
  }

  /** re.IGNORECASE: a literal letter also matches its other case. */
  predicate CharMatches(c: char, lit: char) {
    c == lit
    || ('A' <= lit <= 'Z' && c as int == lit as int + 32)
    || ('a' <= lit <= 'z' && c as int == lit as int - 32)
  }

  /** What one directive consumes from the front of `s` (regular expressions of _strptime.TimeRE). */
  function Step(d: Directive, s: string, acc: Fields): (r: Option<(Fields, nat)>)
    requires InRange(acc)
    ensures r.Some? ==> InRange(r.value.0) && r.value.1 <= |s|
  {
    match d
    case Lit(c) =>
      if s != [] && CharMatches(s[0], c) then Some((acc, 1)) else None
    case Year =>           // \d\d\d\d
      (match ReadNumber(s, 4, 4, 0, 9999)
      case Some((v, n)) => Some((acc.(year := v), n))
      case None => None)
    case Month =>          // 1[0-2]|0[1-9]|[1-9]
      (match ReadNumber(s, 1, 2, 1, 12)
      case Some((v, n)) => Some((acc.(month := v), n))
      case None => None)
    case Day =>            // 3[01]|[12]\d|0[1-9]|[1-9]| [1-9]
      if s != [] && s[0] == ' ' then
        (match ReadNumber(s[1..], 1, 1, 1, 9)
        case Some((v, n)) => Some((acc.(day := v), n + 1))
        case None => None)
      else
        (match ReadNumber(s, 1, 2, 1, 31)
        case Some((v, n)) => Some((acc.(day := v), n))
        case None => None)
    case Hour =>           // 2[0-3]|[0-1]\d|\d
      (match ReadNumber(s, 1, 2, 0, 23)
      case Some((v, n)) => Some((acc.(hour := v), n))
      case None => None)
    case Minute =>         // [0-5]\d|\d
      (match ReadNumber(s, 1, 2, 0, 59)
      case Some((v, n)) => Some((acc.(minute := v), n))
      case None => None)
    case Second =>         // 6[0-1]|[0-5]\d|\d
      (match ReadNumber(s, 1, 2, 0, 61)
      case Some((v, n)) => Some((acc.(second := v), n))
      case None => None)
    case Fraction =>       // [0-9]{1,6}, right-padded with zeros to microseconds
      (match ReadNumber(s, 1, 6, 0, 999999)
      case Some((v, n)) =>
        var us := v * Pow10(6 - n);
        if us <= 999999 then Some((acc.(microsecond := us), n)) else None
      case None => None)
  }

  /** Matches the directives of `fmt` against the front of `s`; the collected
      fields and the text left over. */
  function Scan(fmt: seq<Directive>, s: string, acc: Fields): (r: Option<(Fields, string)>)
    requires InRange(acc)
    ensures r.Some? ==> InRange(r.value.0)
    decreases |fmt|
  {
    if fmt == [] then Some((acc, s))
    else
      match Step(fmt[0], s, acc)
      case None => None
      case Some((acc', n)) => Scan(fmt[1..], s[n..], acc')
  }

  /** The `datetime` constructor's own checks (it raises ValueError otherwise). */
  function Build(f: Fields): (r: Option<DateTime>)
    requires InRange(f)
    ensures r.Some? ==> Valid(r.value)
  {
    if f.year >= 1 && f.day <= DaysInMonth(f.year, f.month) && f.second <= 59 then
      Some(DateTime(f.year, f.month, f.day, f.hour, f.minute, f.second, f.microsecond))
    else None
  }

  /** `datetime.strptime(s, fmt)`: the whole text must match, with no unconverted data. */
  function Strptime(fmt: seq<Directive>, s: string): (r: Option<DateTime>)
    ensures r.Some? ==> Valid(r.value)
  {
    match Scan(fmt, s, DEFAULT_FIELDS)
    case Some((f, rest)) => if rest == [] then Build(f) else None
    case None => None
  }

  /** The first layout of `fmts` that accepts `s`, or the error naming `s`. */
  function FirstMatch(fmts: seq<seq<Directive>>, s: string): (r: Result<DateTime, ParseError>)
    ensures r.Success? <==> exists k :: 0 <= k < |fmts| && Strptime(fmts[k], s).Some?
    ensures r.Success? ==> exists k :: 0 <= k < |fmts| && Strptime(fmts[k], s) == Some(r.value)
                                     && forall j :: 0 <= j < k ==> Strptime(fmts[j], s).None?
    ensures r.Failure? ==> r.error == UnrecognizedDate(s)
  {
    if fmts == [] then Failure(UnrecognizedDate(s))
    else
      match Strptime(fmts[0], s)
      case Some(dt) => Success(dt)
      case None =>
        var r := FirstMatch(fmts[1..], s);
        assert forall k :: 1 <= k < |fmts| ==> fmts[k] == fmts[1..][k - 1];
        r
  }

  /** `parse_datetime`: tries the layouts in order and returns the first success. */
  method ParseDatetime(s: string) returns (r: Result<DateTime, ParseError>)
    ensures r == FirstMatch(FORMATS, s)
  {
    var i := 0;
    while i < |FORMATS|
      invariant 0 <= i <= |FORMATS|
      invariant forall j :: 0 <= j < i ==> Strptime(FORMATS[j], s).None?
    {
      var parsed := Strptime(FORMATS[i], s);
      if parsed.Some? {
        return Success(parsed.value);
      }
      i := i + 1;
    }
    return Failure(UnrecognizedDate(s));
  }

  // ---------------------------------------------------------------------------
  // Properties of the layouts
  // ---------------------------------------------------------------------------

  /** Matching `p + q` is matching `p`, then `q` on what `p` left over. */
  lemma {:induction false} ScanAppend(p: seq<Directive>, q: seq<Directive>, s: string, acc: Fields)
    requires InRange(acc)
    ensures Scan(p + q, s, acc) ==
            match Scan(p, s, acc)
            case None => None
            case Some((a, rest)) => Scan(q, rest, a)
    decreases |p|
  {
    if p == [] {
      assert p + q == q;
    } else {
      assert (p + q)[0] == p[0] && (p + q)[1..] == p[1..] + q;
      match Step(p[0], s, acc)
      case None =>
      case Some((a, n)) => ScanAppend(p[1..], q, s[n..], a);
    }
  }

  /** A layout followed by a literal cannot end where the layout alone ends. */
  lemma ExtensionRejects(p: seq<Directive>, c: char, q: seq<Directive>, s: string)
    requires Strptime(p, s).Some?
    ensures Strptime(p + [Lit(c)] + q, s).None?
  {
    ScanAppend(p, [Lit(c)] + q, s, DEFAULT_FIELDS);
    assert p + [Lit(c)] + q == p + ([Lit(c)] + q);
  }

  /** No text is accepted by two of the three layouts, so the order in which
      `parse_datetime` tries them never changes its result. */
  lemma FormatsExclusive(s: string)
    ensures forall i, j :: 0 <= i < j < |FORMATS| ==>
              !(Strptime(FORMATS[i], s).Some? && Strptime(FORMATS[j], s).Some?)
  {
    var tailFrac := [Fraction, Lit('Z')];
    var tailTime := [Hour, Lit(':'), Minute, Lit(':'), Second];
    assert FRACTIONAL_UTC == WHOLE_SECOND + [Lit('.')] + tailFrac;
    assert WHOLE_SECOND == DATE_ONLY + [Lit('T')] + tailTime;
    assert FRACTIONAL_UTC == DATE_ONLY + [Lit('T')] + (tailTime + [Lit('.')] + tailFrac);
    if Strptime(WHOLE_SECOND, s).Some? {
      ExtensionRejects(WHOLE_SECOND, '.', tailFrac, s);
    }
    if Strptime(DATE_ONLY, s).Some? {
      ExtensionRejects(DATE_ONLY, 'T', tailTime, s);
      ExtensionRejects(DATE_ONLY, 'T', tailTime + [Lit('.')] + tailFrac, s);
    }
  }

  // ---------------------------------------------------------------------------
  // Rendering a timestamp in a layout, and reading it back
  // ---------------------------------------------------------------------------

  function DigitChar(k: int): char
    requires 0 <= k <= 9
  {
    ('0' as int + k) as char
  }

  /** `n` written with exactly `w` digits, zero-padded. */
  function Pad(n: nat, w: nat): (r: string)
    ensures |r| == w && AllDigits(r)
  {
    if w == 0 then [] else Pad(n / 10, w - 1) + [DigitChar(n % 10)]
  }

  lemma {:induction false} PadValue(n: nat, w: nat)
    requires n < Pow10(w)
    ensures Value(Pad(n, w)) == n
  {
    if w > 0 {
      PadValue(n / 10, w - 1);
      assert Pad(n, w)[..w - 1] == Pad(n / 10, w - 1);
    }
  }

  lemma DigitRunOfPad(n: nat, w: nat, rest: string)
    requires rest == [] || !IsDigit(rest[0])
    ensures DigitRun(Pad(n, w) + rest) == w
  {
    var t := Pad(n, w) + rest;
    assert forall i :: 0 <= i < w ==> t[i] == Pad(n, w)[i];
    assert w < |t| ==> t[w] == rest[0];
  }

  /** The canonical text of one directive for `dt` (strftime's zero-padded form). */
  function RenderOne(d: Directive, dt: DateTime): string
    requires Valid(dt)
  {
    match d
    case Lit(c) => [c]
    case Year => Pad(dt.year, 4)
    case Month => Pad(dt.month, 2)
    case Day => Pad(dt.day, 2)
    case Hour => Pad(dt.hour, 2)
    case Minute => Pad(dt.minute, 2)
    case Second => Pad(dt.second, 2)
    case Fraction => Pad(dt.microsecond, 6)
  }

  function Render(fmt: seq<Directive>, dt: DateTime): string
    requires Valid(dt)
    decreases |fmt|
  {
    if fmt == [] then [] else RenderOne(fmt[0], dt) + Render(fmt[1..], dt)
  }

  /** The fields of `dt` that `fmt` mentions, the others from `acc`. */
  function Assign(fmt: seq<Directive>, dt: DateTime, acc: Fields): (r: Fields)
    ensures r.year == if Year in fmt then dt.year else acc.year
    ensures r.month == if Month in fmt then dt.month else acc.month
    ensures r.day == if Day in fmt then dt.day else acc.day
    ensures r.hour == if Hour in fmt then dt.hour else acc.hour
    ensures r.minute == if Minute in fmt then dt.minute else acc.minute
    ensures r.second == if Second in fmt then dt.second else acc.second
    ensures r.microsecond == if Fraction in fmt then dt.microsecond else acc.microsecond
    decreases |fmt|
  {
    if fmt == [] then acc
    else
      var acc' := match fmt[0]
        case Lit(_) => acc
        case Year => acc.(year := dt.year)
        case Month => acc.(month := dt.month)
        case Day => acc.(day := dt.day)
        case Hour => acc.(hour := dt.hour)
        case Minute => acc.(minute := dt.minute)
        case Second => acc.(second := dt.second)
        case Fraction => acc.(microsecond := dt.microsecond);
      assert forall d :: d in fmt <==> d == fmt[0] || d in fmt[1..];
      Assign(fmt[1..], dt, acc')
  }

  /** Every numeric directive is followed by a non-digit literal, or ends the
      layout with `rest` (the text after it) not starting with a digit. */
  predicate Delimited(fmt: seq<Directive>, rest: string) {
    forall i {:trigger fmt[i]} :: 0 <= i < |fmt| && !fmt[i].Lit? ==>
      if i + 1 < |fmt| then fmt[i + 1].Lit? && !IsDigit(fmt[i + 1].c)
      else rest == [] || !IsDigit(rest[0])
  }

  lemma DelimitedTail(fmt: seq<Directive>, rest: string)
    requires fmt != [] && Delimited(fmt, rest)
    ensures Delimited(fmt[1..], rest)
  {
    var t := fmt[1..];
    forall i | 0 <= i < |t| && !t[i].Lit?
      ensures if i + 1 < |t| then t[i + 1].Lit? && !IsDigit(t[i + 1].c)
              else rest == [] || !IsDigit(rest[0])
    {
      assert t[i] == fmt[i + 1];
      var j := i + 1;
      assert 0 <= j < |fmt| && !fmt[j].Lit?;
      if j + 1 < |fmt| {
        assert t[i + 1] == fmt[j + 1];
      }
    }
  }

  lemma StepRenderNumber(n: nat, w: nat, rest: string, lo: int, hi: int, minLen: nat, maxLen: nat)
    requires rest == [] || !IsDigit(rest[0])
    requires n < Pow10(w) && lo <= n <= hi && minLen <= w <= maxLen
    ensures ReadNumber(Pad(n, w) + rest, minLen, maxLen, lo, hi) == Some((n, w))
  {
    DigitRunOfPad(n, w, rest);
    PadValue(n, w);
    assert (Pad(n, w) + rest)[..w] == Pad(n, w);
  }

  lemma StepRender(d: Directive, dt: DateTime, rest: string, acc: Fields)
    requires Valid(dt) && InRange(acc)
    requires !d.Lit? ==> rest == [] || !IsDigit(rest[0])
    ensures Step(d, RenderOne(d, dt) + rest, acc) == Some((Assign([d], dt, acc), |RenderOne(d, dt)|))
  {
    var s := RenderOne(d, dt) + rest;
    match d
    case Lit(c) =>
    case Year => StepRenderNumber(dt.year, 4, rest, 0, 9999, 4, 4);
    case Month => StepRenderNumber(dt.month, 2, rest, 1, 12, 1, 2);
    case Day =>
      assert s[0] == Pad(dt.day, 2)[0];
      StepRenderNumber(dt.day, 2, rest, 1, 31, 1, 2);
    case Hour => StepRenderNumber(dt.hour, 2, rest, 0, 23, 1, 2);
    case Minute => StepRenderNumber(dt.minute, 2, rest, 0, 59, 1, 2);
    case Second => StepRenderNumber(dt.second, 2, rest, 0, 61, 1, 2);
    case Fraction => StepRenderNumber(dt.microsecond, 6, rest, 0, 999999, 1, 6);
  }

  /** Reading back a rendered timestamp recovers the fields the layout mentions. */
  lemma {:induction false} ScanRender(fmt: seq<Directive>, dt: DateTime, rest: string, acc: Fields)
    requires Valid(dt) && InRange(acc)
    requires Delimited(fmt, rest)
    ensures Scan(fmt, Render(fmt, dt) + rest, acc) == Some((Assign(fmt, dt, acc), rest))
    decreases |fmt|
  {
    if fmt != [] {
      var tail := Render(fmt[1..], dt) + rest;
      assert Render(fmt, dt) + rest == RenderOne(fmt[0], dt) + tail;
      if !fmt[0].Lit? {
        if |fmt| > 1 {
          assert fmt[1].Lit?;
          assert Render(fmt[1..], dt) == [fmt[1].c] + Render(fmt[2..], dt);
        } else {
          assert tail == rest;
        }
      }
      StepRender(fmt[0], dt, tail, acc);
      var acc' := Assign([fmt[0]], dt, acc);
      DelimitedTail(fmt, rest);
      ScanRender(fmt[1..], dt, rest, acc');
      var whole := Render(fmt, dt) + rest;
      var n := |RenderOne(fmt[0], dt)|;
      assert whole[n..] == tail;
      assert Step(fmt[0], whole, acc) == Some((acc', n));
      assert Scan(fmt, whole, acc) == Scan(fmt[1..], tail, acc');
      assert Assign(fmt[1..], dt, acc') == Assign(fmt, dt, acc);
    } else {
      assert Render(fmt, dt) + rest == rest;
    }
  }

  /** Under the three layouts, a text one of them accepts is parsed by it. */
  lemma ParsedByItsLayout(s: string, k: int)
    requires 0 <= k < |FORMATS| && Strptime(FORMATS[k], s).Some?
    ensures FirstMatch(FORMATS, s) == Success(Strptime(FORMATS[k], s).value)
  {
    FormatsExclusive(s);
  }

  lemma ReadBack(fmt: seq<Directive>, dt: DateTime)
    requires Valid(dt) && Delimited(fmt, [])
    ensures Strptime(fmt, Render(fmt, dt)) == Build(Assign(fmt, dt, DEFAULT_FIELDS))
  {
    ScanRender(fmt, dt, [], DEFAULT_FIELDS);
    assert Render(fmt, dt) + [] == Render(fmt, dt);
  }

  lemma FractionalDelimited()
    ensures Delimited(FRACTIONAL_UTC, [])
  {
    assert forall i :: 0 <= i < |FRACTIONAL_UTC| && !FRACTIONAL_UTC[i].Lit? ==> i in {0, 2, 4, 6, 8, 10, 12};
  }

  lemma WholeSecondDelimited()
    ensures Delimited(WHOLE_SECOND, [])
  {
    assert forall i :: 0 <= i < |WHOLE_SECOND| && !WHOLE_SECOND[i].Lit? ==> i in {0, 2, 4, 6, 8, 10};
  }

  lemma DateOnlyDelimited()
    ensures Delimited(DATE_ONLY, [])
  {
    assert forall i :: 0 <= i < |DATE_ONLY| && !DATE_ONLY[i].Lit? ==> i in {0, 2, 4};
  }

  /** Which fields each layout sets. */
  lemma LayoutFields()
    ensures Year in DATE_ONLY && Month in DATE_ONLY && Day in DATE_ONLY
    ensures Hour !in DATE_ONLY && Minute !in DATE_ONLY && Second !in DATE_ONLY && Fraction !in DATE_ONLY
    ensures Year in WHOLE_SECOND && Month in WHOLE_SECOND && Day in WHOLE_SECOND
    ensures Hour in WHOLE_SECOND && Minute in WHOLE_SECOND && Second in WHOLE_SECOND && Fraction !in WHOLE_SECOND
    ensures Year in FRACTIONAL_UTC && Month in FRACTIONAL_UTC && Day in FRACTIONAL_UTC
    ensures Hour in FRACTIONAL_UTC && Minute in FRACTIONAL_UTC && Second in FRACTIONAL_UTC
    ensures Fraction in FRACTIONAL_UTC
  {
    assert DATE_ONLY[0] == Year && DATE_ONLY[2] == Month && DATE_ONLY[4] == Day;
    assert WHOLE_SECOND[0] == Year && WHOLE_SECOND[2] == Month && WHOLE_SECOND[4] == Day;
    assert WHOLE_SECOND[6] == Hour && WHOLE_SECOND[8] == Minute && WHOLE_SECOND[10] == Second;
    assert FRACTIONAL_UTC[0] == Year && FRACTIONAL_UTC[2] == Month && FRACTIONAL_UTC[4] == Day;
    assert FRACTIONAL_UTC[6] == Hour && FRACTIONAL_UTC[8] == Minute && FRACTIONAL_UTC[10] == Second;
    assert FRACTIONAL_UTC[12] == Fraction;
  }

  /** Round trip for "%Y-%m-%dT%H:%M:%S.%fZ": every field is read back. */
  lemma RoundTripFractional(dt: DateTime)
    requires Valid(dt)
    ensures FirstMatch(FORMATS, Render(FRACTIONAL_UTC, dt)) == Success(dt)
  {
    FractionalDelimited();
    LayoutFields();
    ReadBack(FRACTIONAL_UTC, dt);
    ParsedByItsLayout(Render(FRACTIONAL_UTC, dt), 0);
  }

  /** Round trip for "%Y-%m-%dT%H:%M:%S": the microseconds come back as zero. */
  lemma RoundTripWholeSecond(dt: DateTime)
    requires Valid(dt)
    ensures FirstMatch(FORMATS, Render(WHOLE_SECOND, dt)) == Success(dt.(microsecond := 0))
  {
    WholeSecondDelimited();
    LayoutFields();
    ReadBack(WHOLE_SECOND, dt);
    var f := Assign(WHOLE_SECOND, dt, DEFAULT_FIELDS);
    assert f == Fields(dt.year, dt.month, dt.day, dt.hour, dt.minute, dt.second, 0);
    ParsedByItsLayout(Render(WHOLE_SECOND, dt), 1);
  }

  /** Round trip for "%Y-%m-%d": the date comes back at midnight. */
  lemma RoundTripDateOnly(dt: DateTime)
    requires Valid(dt)
    ensures FirstMatch(FORMATS, Render(DATE_ONLY, dt))
            == Success(DateTime(dt.year, dt.month, dt.day, 0, 0, 0, 0))
  {
    DateOnlyDelimited();
    LayoutFields();
    ReadBack(DATE_ONLY, dt);
    ParsedByItsLayout(Render(DATE_ONLY, dt), 2);
  }

  /** A text in the date-only layout parses to midnight of that date, whatever
      the other layouts would have done with it. */
  lemma DateOnlyIsMidnight(s: string)
    requires Strptime(DATE_ONLY, s).Some?
    ensures var dt := Strptime(DATE_ONLY, s).value;
            FirstMatch(FORMATS, s) == Success(dt) &&
            dt.hour == 0 && dt.minute == 0 && dt.second == 0 && dt.microsecond == 0
  {
    ParsedByItsLayout(s, 2);
    NoTimeFields(DATE_ONLY, s, DEFAULT_FIELDS);
  }

  /** Directives that set no time field leave the time fields as they were. */
  lemma {:induction false} NoTimeFields(fmt: seq<Directive>, s: string, acc: Fields)
    requires InRange(acc)
    requires Hour !in fmt && Minute !in fmt && Second !in fmt && Fraction !in fmt
    ensures Scan(fmt, s, acc).Some? ==>
              var f := Scan(fmt, s, acc).value.0;
              f.hour == acc.hour && f.minute == acc.minute && f.second == acc.second
              && f.microsecond == acc.microsecond
    decreases |fmt|
  {
    if fmt != [] {
      assert fmt[0] in fmt;
      assert forall d :: d in fmt[1..] ==> d in fmt;
      match Step(fmt[0], s, acc)
      case None =>
      case Some((a, n)) => NoTimeFields(fmt[1..], s[n..], a);
    }
  }
}
