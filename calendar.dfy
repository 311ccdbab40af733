/**
 * The part of Python's `datetime` the services rely on: proleptic Gregorian dates,
 * moments with a time of day, day ordinals, weekdays, ISO week numbers,
 * `strptime` with the formats `%Y-%m-%d` and `%m/%d/%Y`, `isoformat` and the
 * `fromisoformat` forms that `isoformat` writes.
 */
module Calendar {
  import opened Wrappers
  import opened Text

  datatype Date = Date(year: int, month: int, day: int)

  predicate IsLeap(y: int)
  {
    y % 4 == 0 && (y % 100 != 0 || y % 400 == 0)
  }

  function DaysInMonth(y: int, m: int): (r: int)
    requires 1 <= m <= 12
    ensures 28 <= r <= 31
    ensures m == 2 ==> (r == 29 <==> IsLeap(y))
  {
    if m == 2 then (if IsLeap(y) then 29 else 28)
    else if m == 4 || m == 6 || m == 9 || m == 11 then 30
    else 31
  }

  /** What `datetime(year, month, day)` accepts: years 1 to 9999 and a real day of the month. */
  predicate ValidDate(d: Date)
  {
    1 <= d.year <= 9999 && 1 <= d.month <= 12 && 1 <= d.day <= DaysInMonth(d.year, d.month)
  }

  const MicrosPerDay: int := 86_400_000_000

  /** A naive `datetime`: a date and the microseconds elapsed since its midnight. */
  datatype Moment = Moment(date: Date, micros: int)

  predicate ValidMoment(t: Moment)
  {
    ValidDate(t.date) && 0 <= t.micros < MicrosPerDay
  }

  function Midnight(d: Date): Moment
  {
    Moment(d, 0)
  }

  /** Days in the years 1 to `y - 1` (Python's `_days_before_year`). */
  function DaysBeforeYear(y: int): int
  {
    var p := y - 1;
    p * 365 + p / 4 - p / 100 + p / 400
  }

  /** Days in the months before `m` of year `y` (Python's `_days_before_month`). */
  function DaysBeforeMonth(y: int, m: int): int
    requires 1 <= m <= 12
  {
    [0, 0, 31, 59, 90, 120, 151, 181, 212, 243, 273, 304, 334][m] + (if m > 2 && IsLeap(y) then 1 else 0)
  }

  /** The table of `DaysBeforeMonth` adds up the month lengths. */
  lemma DaysBeforeMonthStep(y: int, m: int)
    requires 1 <= m < 12
    ensures DaysBeforeMonth(y, m + 1) == DaysBeforeMonth(y, m) + DaysInMonth(y, m)
  {
  }

  /** `date.toordinal()`: 0001-01-01 is day 1. */
  function Ordinal(d: Date): int
    requires 1 <= d.month <= 12
  {
    DaysBeforeYear(d.year) + DaysBeforeMonth(d.year, d.month) + d.day
  }

  /** A year has 366 days exactly when it is a leap year. */
  lemma YearLength(y: int)
    ensures DaysBeforeYear(y + 1) - DaysBeforeYear(y) == if IsLeap(y) then 366 else 365
  {
    DivStep(y, 4);
    DivStep(y, 100);
    DivStep(y, 400);
  }

  /** Stepping from `y - 1` to `y` raises `y / k` by one exactly when `k` divides `y`. */
  lemma DivStep(y: int, k: int)
    requires k > 0
    ensures y / k - (y - 1) / k == if y % k == 0 then 1 else 0
  {
    var q, r := (y - 1) / k, (y - 1) % k;
    assert y - 1 == q * k + r;
    if r + 1 == k {
      assert y == (q + 1) * k + 0;
      ModUnique(y, k, q + 1, 0);
    } else {
      assert y == q * k + (r + 1);
      ModUnique(y, k, q, r + 1);
    }
  }

  /** Adding one to a number adds one to its residue, cyclically. */
  lemma ModSucc(a: int, d: int)
    requires d > 0
    ensures (a + 1) % d == (a % d + 1) % d
  {
    var q, r := a / d, a % d;
    assert a == q * d + r;
    if r + 1 == d {
      assert (q + 1) * d == q * d + d;
      ModUnique(a + 1, d, q + 1, 0);
      ModUnique(r + 1, d, 1, 0);
    } else {
      assert a + 1 == q * d + (r + 1);
      ModUnique(a + 1, d, q, r + 1);
      ModUnique(r + 1, d, 0, r + 1);
    }
  }

  lemma DaysBeforeDecember(y: int)
    ensures DaysBeforeMonth(y, 12) + 31 == if IsLeap(y) then 366 else 365
  {
  }

  /** The ordinal counts days without gaps: the day after a date has the next ordinal. */
  lemma OrdinalNext(d: Date)
    requires ValidDate(d)
    ensures Ordinal(NextDay(d)) == Ordinal(d) + 1
  {
    if d.day == DaysInMonth(d.year, d.month) {
      if d.month == 12 {
        YearLength(d.year);
        DaysBeforeDecember(d.year);
      } else {
        DaysBeforeMonthStep(d.year, d.month);
      }
    }
  }

  function NextDay(d: Date): (r: Date)
    requires ValidDate(d)
  {
    if d.day < DaysInMonth(d.year, d.month) then Date(d.year, d.month, d.day + 1)
    else if d.month < 12 then Date(d.year, d.month + 1, 1)
    else Date(d.year + 1, 1, 1)
  }

  /** A moment as microseconds since the start of day 0, the scale pandas compares on. */
  function Stamp(t: Moment): int
    requires 1 <= t.date.month <= 12
  {
    Ordinal(t.date) * MicrosPerDay + t.micros
  }

  /** `date.weekday()`: Monday is 0, Sunday is 6. */
  function Weekday(d: Date): (w: int)
    requires 1 <= d.month <= 12
    ensures 0 <= w < 7
  {
    (Ordinal(d) + 6) % 7
  }

  /** Consecutive days have consecutive weekdays. */
  lemma WeekdayNext(d: Date)
    requires ValidDate(d)
    ensures Weekday(NextDay(d)) == (Weekday(d) + 1) % 7
  {
    OrdinalNext(d);
    ModSucc(Ordinal(d) + 6, 7);
  }

  lemma FirstDayIsMonday()
    ensures Weekday(Date(1, 1, 1)) == 0
  {
  }

  /** `day_name()` of a weekday number. */
  function DayName(w: int): string
    requires 0 <= w < 7
  {
    ["Monday", "Tuesday", "Wednesday", "Thursday", "Friday", "Saturday", "Sunday"][w]
  }

  /** Ordinal of the Monday that starts ISO week 1 of year `y` (Python's `_isoweek1monday`). */
  function IsoWeek1Monday(y: int): (r: int)
  {
    var first := Ordinal(Date(y, 1, 1));
    var wd := (first + 6) % 7;
    if wd > 3 then first - wd + 7 else first - wd
  }

  /** The week that starts ISO year `y` starts on a Monday, within three days of January 1. */
  lemma IsoWeek1MondayShape(y: int)
    ensures (IsoWeek1Monday(y) + 6) % 7 == 0
    ensures -3 <= IsoWeek1Monday(y) - Ordinal(Date(y, 1, 1)) <= 3
  {
    var first := Ordinal(Date(y, 1, 1));
    var q, wd := (first + 6) / 7, (first + 6) % 7;
    assert first + 6 == q * 7 + wd;
    if wd > 3 {
      assert IsoWeek1Monday(y) + 6 == (q + 1) * 7 + 0;
      ModUnique(IsoWeek1Monday(y) + 6, 7, q + 1, 0);
    } else {
      assert IsoWeek1Monday(y) + 6 == q * 7 + 0;
      ModUnique(IsoWeek1Monday(y) + 6, 7, q, 0);
    }
  }

  /** The week number of `isocalendar()`; Dafny's `/` by 7 floors like Python's `divmod`. */
  function IsoWeek(d: Date): int
    requires 1 <= d.month <= 12
  {
    var today := Ordinal(d);
    var week := (today - IsoWeek1Monday(d.year)) / 7;
    if week < 0 then (today - IsoWeek1Monday(d.year - 1)) / 7 + 1
    else if week >= 52 && today >= IsoWeek1Monday(d.year + 1) then 1
    else week + 1
  }

  // ---------------------------------------------------------------------------
  // strptime
  // ---------------------------------------------------------------------------

  /**
   * Python's `strptime` turns each directive into a regular expression and matches the
   * whole format with `re.match`; any text left over is an error. The alternatives of
   * each directive are tried in order and, for these two formats, the separators never
   * force the regular expression back into a later alternative, so the first
   * alternative that matches is the one taken. A match is the field's value and length.
   */
  datatype Field = Field(value: nat, length: nat)

  /** `%Y`: exactly four digits. */
  function MatchYear(s: string): (r: Option<Field>)
    ensures r.Some? ==> r.value.length == 4 <= |s|
  {
    if |s| >= 4 && IsDigit(s[0]) && IsDigit(s[1]) && IsDigit(s[2]) && IsDigit(s[3]) then
      Some(Field(DigitValue(s[0]) * 1000 + DigitValue(s[1]) * 100 + DigitValue(s[2]) * 10 + DigitValue(s[3]), 4))
    else None
  }

  /** `%m`: `1[0-2]|0[1-9]|[1-9]`. */
  function MatchMonth(s: string): (r: Option<Field>)
    ensures r.Some? ==> 1 <= r.value.length <= |s| && 1 <= r.value.value <= 12
  {
    if |s| >= 2 && s[0] == '1' && '0' <= s[1] <= '2' then Some(Field(10 + DigitValue(s[1]), 2))
    else if |s| >= 2 && s[0] == '0' && '1' <= s[1] <= '9' then Some(Field(DigitValue(s[1]), 2))
    else if |s| >= 1 && '1' <= s[0] <= '9' then Some(Field(DigitValue(s[0]), 1))
    else None
  }

  /** `%d`: `3[01]|[12]\d|0[1-9]|[1-9]| [1-9]`; the last alternative is a space and a digit. */
  function MatchDay(s: string): (r: Option<Field>)
    ensures r.Some? ==> 1 <= r.value.length <= |s| && 1 <= r.value.value <= 31
  {
    if |s| >= 2 && s[0] == '3' && (s[1] == '0' || s[1] == '1') then Some(Field(30 + DigitValue(s[1]), 2))
    else if |s| >= 2 && (s[0] == '1' || s[0] == '2') && IsDigit(s[1]) then
      Some(Field(10 * DigitValue(s[0]) + DigitValue(s[1]), 2))
    else if |s| >= 2 && s[0] == '0' && '1' <= s[1] <= '9' then Some(Field(DigitValue(s[1]), 2))
    else if |s| >= 1 && '1' <= s[0] <= '9' then Some(Field(DigitValue(s[0]), 1))
    else if |s| >= 2 && s[0] == ' ' && '1' <= s[1] <= '9' then Some(Field(DigitValue(s[1]), 2))
    else None
  }

  /** Which directive a position of a format holds. */
  datatype Directive = Y | M | D

  function MatchDirective(k: Directive, s: string): (r: Option<Field>)
    ensures r.Some? ==> 1 <= r.value.length <= |s|
  {
    match k
    case Y => MatchYear(s)
    case M => MatchMonth(s)
    case D => MatchDay(s)
  }

  /**
   * Three directives separated by `sep`, consuming all of `s`: the three field values
   * in format order, or `None` for strptime's `ValueError`.
   */
  function MatchFormat(s: string, a: Directive, b: Directive, c: Directive, sep: char): Option<(nat, nat, nat)>
  {
    match MatchDirective(a, s)
    case None => None
    case Some(fa) =>
      var s1 := s[fa.length..];
      if s1 == [] || s1[0] != sep then None else
      match MatchDirective(b, s1[1..])
      case None => None
      case Some(fb) =>
        var s2 := s1[1..][fb.length..];
        if s2 == [] || s2[0] != sep then None else
        match MatchDirective(c, s2[1..])
        case None => None
        case Some(fc) =>
          if fc.length != |s2| - 1 then None   // unconverted data remains
          else Some((fa.value, fb.value, fc.value))
  }

  /** The `datetime` constructor's check on the matched fields. */
  function Build(year: int, month: int, day: int): (r: Option<Date>)
    ensures r.Some? <==> 1 <= month <= 12 && ValidDate(Date(year, month, day))
    ensures r.Some? ==> r.value == Date(year, month, day)
  {
    if 1 <= year <= 9999 && 1 <= month <= 12 && 1 <= day <= DaysInMonth(year, month) then Some(Date(year, month, day))
    else None
  }

  /** `datetime.strptime(s, '%Y-%m-%d')`, at midnight. */
  function ParseIso(s: string): (r: Option<Date>)
    ensures r.Some? ==> ValidDate(r.value)
  {
    match MatchFormat(s, Y, M, D, '-')
    case None => None
    case Some((y, m, d)) => Build(y, m, d)
  }

  /** `datetime.strptime(s, '%m/%d/%Y')`, at midnight. */
  function ParseUs(s: string): (r: Option<Date>)
    ensures r.Some? ==> ValidDate(r.value)
  {
    match MatchFormat(s, M, D, Y, '/')
    case None => None
    case Some((m, d, y)) => Build(y, m, d)
  }

  // ---------------------------------------------------------------------------
  // Formatting
  // ---------------------------------------------------------------------------

  /** `date.isoformat()`: `YYYY-MM-DD`. */
  function FormatDate(d: Date): (r: string)
    requires ValidDate(d)
    ensures |r| == 10
  {
    Fixed(d.year, 4) + "-" + Fixed(d.month, 2) + "-" + Fixed(d.day, 2)
  }

  /** The same date written `MM/DD/YYYY`. */
  function FormatUs(d: Date): (r: string)
    requires ValidDate(d)
    ensures |r| == 10
  {
    Fixed(d.month, 2) + "/" + Fixed(d.day, 2) + "/" + Fixed(d.year, 4)
  }

  /** `datetime.isoformat()`: `YYYY-MM-DDTHH:MM:SS`, then `.ffffff` when the microseconds are not 0. */
  function FormatMoment(t: Moment): (r: string)
    requires ValidMoment(t)
    ensures |r| >= 19 && r[..10] == FormatDate(t.date) && r[10] == 'T'
  {
    FormatDate(t.date) + "T" + FormatClock(t.micros)
  }

  /** `HH:MM:SS`, then `.ffffff` when the microseconds are not 0. */
  function FormatClock(micros: nat): string
  {
    var secs := micros / 1_000_000;
    var frac := micros % 1_000_000;
    Fixed(secs / 3600, 2) + ":" + Fixed(secs / 60 % 60, 2) + ":" + Fixed(secs % 60, 2)
      + (if frac == 0 then "" else "." + Fixed(frac, 6))
  }

  lemma FixedTwo(n: nat)
    requires n < 100
    ensures Fixed(n, 2) == [DigitChar(n / 10), DigitChar(n % 10)]
  {
    assert n / 10 / 10 == 0 && n / 10 % 10 == n / 10;
    assert Fixed(n / 10, 1) == Fixed(0, 0) + [DigitChar(n / 10)];
  }

  lemma FixedFour(n: nat)
    requires n < 10000
    ensures Fixed(n, 4) == [DigitChar(n / 1000), DigitChar(n / 100 % 10), DigitChar(n / 10 % 10), DigitChar(n % 10)]
  {
    FixedTwo(n / 100);
    assert n / 100 / 10 == n / 1000 && n / 100 % 10 == n / 100 % 10;
    assert Fixed(n / 10, 3) == Fixed(n / 10 / 10, 2) + [DigitChar(n / 10 % 10)];
    assert n / 10 / 10 == n / 100;
  }

  /** A month written with two digits is matched whole by `%m`. */
  lemma MatchMonthFixed(m: int, rest: string)
    requires 1 <= m <= 12
    ensures MatchMonth(Fixed(m, 2) + rest) == Some(Field(m, 2))
  {
    FixedTwo(m);
  }

  /** A day written with two digits is matched whole by `%d`. */
  lemma MatchDayFixed(d: int, rest: string)
    requires 1 <= d <= 31
    ensures MatchDay(Fixed(d, 2) + rest) == Some(Field(d, 2))
  {
    FixedTwo(d);
    var s := Fixed(d, 2) + rest;
    var a, b := d / 10, d % 10;
    assert s[0] == DigitChar(a) && s[1] == DigitChar(b);
    assert d == 10 * a + b;
    if a == 3 {
      assert s[1] == '0' || s[1] == '1';
    } else if a == 0 {
      assert s[0] == '0' && '1' <= s[1] <= '9';
    } else {
      assert s[0] == '1' || s[0] == '2';
    }
  }

  lemma MatchYearFixed(y: int, rest: string)
    requires 0 <= y <= 9999
    ensures MatchYear(Fixed(y, 4) + rest) == Some(Field(y, 4))
  {
    FixedFour(y);
    var s := Fixed(y, 4) + rest;
    assert s[0] == DigitChar(y / 1000) && s[1] == DigitChar(y / 100 % 10);
    assert s[2] == DigitChar(y / 10 % 10) && s[3] == DigitChar(y % 10);
    assert y == y / 1000 * 1000 + y / 100 % 10 * 100 + y / 10 % 10 * 10 + y % 10;
  }

  /** `strptime(d.isoformat(), '%Y-%m-%d')` gives `d` back. */
  lemma ParseIsoFormatDate(d: Date)
    requires ValidDate(d)
    ensures ParseIso(FormatDate(d)) == Some(d)
  {
    var ys, ms, ds := Fixed(d.year, 4), Fixed(d.month, 2), Fixed(d.day, 2);
    var s := FormatDate(d);
    assert s == ys + ("-" + ms + "-" + ds);
    IsoLayout(s, ys, ms, ds);
    MatchYearFixed(d.year, "-" + ms + "-" + ds);
    MatchMonthFixed(d.month, "-" + ds);
    MatchDayFixed(d.day, []);
    assert MatchFormat(s, Y, M, D, '-') == Some((d.year, d.month, d.day));
  }

  /** The pieces `MatchFormat` sees, one field after another, in `YYYY-MM-DD`. */
  lemma IsoLayout(s: string, ys: string, ms: string, ds: string)
    requires |ys| == 4 && |ms| == 2
    requires s == ys + ("-" + ms + "-" + ds)
    ensures s[4..] == "-" + ms + "-" + ds
    ensures s[4..][1..] == ms + ("-" + ds)
    ensures s[4..][1..][2..] == "-" + ds
    ensures s[4..][1..][2..][1..] == ds + []
  {
    var s1 := s[4..];
    assert s1 == "-" + ms + "-" + ds;
    assert s1[1..] == ms + ("-" + ds);
    var s2 := s1[1..][2..];
    assert s2 == "-" + ds;
    assert s2[1..] == ds + [];
  }

  /** `strptime` with `%m/%d/%Y` reads back a date written `MM/DD/YYYY`. */
  lemma ParseUsFormatUs(d: Date)
    requires ValidDate(d)
    ensures ParseUs(FormatUs(d)) == Some(d)
  {
    var ys, ms, ds := Fixed(d.year, 4), Fixed(d.month, 2), Fixed(d.day, 2);
    var s := FormatUs(d);
    assert s == ms + ("/" + ds + "/" + ys);
    UsLayout(s, ms, ds, ys);
    MatchMonthFixed(d.month, "/" + ds + "/" + ys);
    MatchDayFixed(d.day, "/" + ys);
    MatchYearFixed(d.year, []);
    assert MatchFormat(s, M, D, Y, '/') == Some((d.month, d.day, d.year));
  }

  /** The pieces `MatchFormat` sees, one field after another, in `MM/DD/YYYY`. */
  lemma UsLayout(s: string, ms: string, ds: string, ys: string)
    requires |ms| == 2 && |ds| == 2
    requires s == ms + ("/" + ds + "/" + ys)
    ensures s[2..] == "/" + ds + "/" + ys
    ensures s[2..][1..] == ds + ("/" + ys)
    ensures s[2..][1..][2..] == "/" + ys
    ensures s[2..][1..][2..][1..] == ys + []
  {
    var s1 := s[2..];
    assert s1 == "/" + ds + "/" + ys;
    assert s1[1..] == ds + ("/" + ys);
    var s2 := s1[1..][2..];
    assert s2 == "/" + ys;
    assert s2[1..] == ys + [];
  }

  /** A US-style date is never read as ISO, so the ISO attempt cannot shadow it. */
  lemma ParseIsoRejectsUs(d: Date)
    requires ValidDate(d)
    ensures ParseIso(FormatUs(d)) == None
  {
    var s := FormatUs(d);
    FixedTwo(d.month);
    assert s[2] == '/';
  }

  // ---------------------------------------------------------------------------
  // fromisoformat
  // ---------------------------------------------------------------------------

  predicate DigitRun(t: string)
  {
    forall k :: 0 <= k < |t| ==> IsDigit(t[k])
  }

  /** The number written by the `width` ASCII digits at `s[i..]`, if they are digits. */
  function DigitsAt(s: string, i: nat, width: nat): (r: Option<nat>)
    ensures r.Some? ==> i + width <= |s|
  {
    if i + width <= |s| && DigitRun(s[i..i + width]) then Some(DigitsValue(s[i..i + width])) else None
  }

  /** The date part `YYYY-MM-DD` of an ISO string (`_parse_isoformat_date`). */
  function IsoDatePart(s: string): (r: Option<Date>)
    ensures r.Some? ==> ValidDate(r.value)
  {
    if |s| < 10 || s[4] != '-' || s[7] != '-' then None
    else match (DigitsAt(s, 0, 4), DigitsAt(s, 5, 2), DigitsAt(s, 8, 2))
      case (Some(y), Some(m), Some(d)) => Build(y, m, d)
      case _ => None
  }

  /** `HH:MM:SS` at `s[11..19]`, as microseconds since midnight. */
  function IsoClock(s: string): (r: Option<int>)
    ensures r.Some? ==> 0 <= r.value <= MicrosPerDay - 1_000_000
  {
    if |s| < 19 || s[13] != ':' || s[16] != ':' then None
    else match (DigitsAt(s, 11, 2), DigitsAt(s, 14, 2), DigitsAt(s, 17, 2))
      case (Some(hh), Some(mm), Some(ss)) =>
        if hh >= 24 || mm >= 60 || ss >= 60 then None
        else Some(((hh * 60 + mm) * 60 + ss) * 1_000_000)
      case _ => None
  }

  /** Nothing, or `.ffffff`, after the seconds: the microseconds it adds. */
  function IsoFraction(s: string): (r: Option<int>)
    ensures r.Some? ==> 0 <= r.value < 1_000_000
  {
    if |s| == 19 then Some(0)
    else if |s| == 26 && s[19] == '.' then
      match DigitsAt(s, 20, 6)
      case Some(us) => if us < 1_000_000 then Some(us) else None
      case None => None
    else None
  }

  /** The time part `HH:MM:SS` or `HH:MM:SS.ffffff` starting at `s[11]`, in microseconds. */
  function IsoTimePart(s: string): (r: Option<int>)
    ensures r.Some? ==> 0 <= r.value < MicrosPerDay
  {
    match (IsoClock(s), IsoFraction(s))
    case (Some(c), Some(f)) => Some(c + f)
    case _ => None
  }

  /**
   * `datetime.fromisoformat(s)` for the forms `YYYY-MM-DD`, `YYYY-MM-DD?HH:MM:SS` and
   * `YYYY-MM-DD?HH:MM:SS.ffffff`, where `?` is any one character.
   */
  function FromIsoFormat(s: string): (r: Option<Moment>)
    ensures r.Some? ==> ValidMoment(r.value)
  {
    match IsoDatePart(s)
    case None => None
    case Some(date) =>
      if |s| == 10 then Some(Midnight(date))
      else match IsoTimePart(s)
        case None => None
        case Some(us) => Some(Moment(date, us))
  }

  lemma DigitsAtFixed(s: string, i: nat, n: nat, width: nat)
    requires n < Pow10Nat(width)
    requires i + width <= |s| && s[i..i + width] == Fixed(n, width)
    ensures DigitsAt(s, i, width) == Some(n)
  {
    FixedValue(n, width);
    ModUnique(n, Pow10Nat(width), 0, n);
  }

  lemma DatePartOfFormat(t: Moment, s: string)
    requires ValidMoment(t)
    requires |s| >= 10 && s[..10] == FormatDate(t.date)
    ensures IsoDatePart(s) == Some(t.date)
  {
    var d := t.date;
    assert s[..10] == Fixed(d.year, 4) + "-" + Fixed(d.month, 2) + "-" + Fixed(d.day, 2);
    assert s[0..4] == Fixed(d.year, 4);
    assert s[5..7] == Fixed(d.month, 2);
    assert s[8..10] == Fixed(d.day, 2);
    assert Pow10Nat(2) == 100 && Pow10Nat(4) == 10000;
    DigitsAtFixed(s, 0, d.year, 4);
    DigitsAtFixed(s, 5, d.month, 2);
    DigitsAtFixed(s, 8, d.day, 2);
  }

  /** `datetime.fromisoformat(t.isoformat())` gives `t` back. */
  lemma FromIsoFormatMoment(t: Moment)
    requires ValidMoment(t)
    ensures FromIsoFormat(FormatMoment(t)) == Some(t)
  {
    var s := FormatMoment(t);
    assert s[..10] == FormatDate(t.date);
    DatePartOfFormat(t, s);
    TimePartOfFormat(s, FormatDate(t.date) + "T", t.micros);
  }

  lemma TimePartOfFormat(s: string, p: string, micros: nat)
    requires |p| == 11 && micros < MicrosPerDay
    requires s == p + FormatClock(micros)
    ensures |s| >= 19
    ensures IsoTimePart(s) == Some(micros)
  {
    var secs := micros / 1_000_000;
    var frac := micros % 1_000_000;
    var hh, mm, ss := secs / 3600, secs / 60 % 60, secs % 60;
    var tail := if frac == 0 then "" else "." + Fixed(frac, 6);
    TimeSplit(micros);
    ClockText(s, p, hh, mm, ss, frac, tail);
    TimePartOfFields(s, ((hh * 60 + mm) * 60 + ss) * 1_000_000, frac, micros);
  }

  /** A time of day written as `HH:MM:SS` and an optional fraction, after an 11-character date part. */
  lemma ClockText(s: string, p: string, hh: nat, mm: nat, ss: nat, frac: nat, tail: string)
    requires |p| == 11 && hh < 24 && mm < 60 && ss < 60 && frac < 1_000_000
    requires tail == if frac == 0 then "" else "." + Fixed(frac, 6)
    requires s == p + (Fixed(hh, 2) + ":" + Fixed(mm, 2) + ":" + Fixed(ss, 2) + tail)
    ensures |s| >= 19
    ensures IsoClock(s) == Some(((hh * 60 + mm) * 60 + ss) * 1_000_000)
    ensures IsoFraction(s) == Some(frac)
  {
    TimeDigits(s, p, hh, mm, ss, tail);
    FractionOfFormat(s, frac, tail);
    ClockOfFields(s, hh, mm, ss);
  }

  lemma TimePartOfFields(s: string, clock: int, frac: int, micros: int)
    requires IsoClock(s) == Some(clock) && IsoFraction(s) == Some(frac) && clock + frac == micros
    ensures IsoTimePart(s) == Some(micros)
  {
  }

  lemma ClockOfFields(s: string, hh: nat, mm: nat, ss: nat)
    requires |s| >= 19 && s[13] == ':' && s[16] == ':' && hh < 24 && mm < 60 && ss < 60
    requires DigitsAt(s, 11, 2) == Some(hh) && DigitsAt(s, 14, 2) == Some(mm) && DigitsAt(s, 17, 2) == Some(ss)
    ensures IsoClock(s) == Some(((hh * 60 + mm) * 60 + ss) * 1_000_000)
  {
  }

  lemma FractionOfFormat(s: string, frac: nat, tail: string)
    requires frac < 1_000_000
    requires tail == if frac == 0 then "" else "." + Fixed(frac, 6)
    requires |s| == 19 + |tail| && s[19..] == tail
    ensures IsoFraction(s) == Some(frac)
  {
    if frac != 0 {
      assert s[20..26] == tail[1..];
      assert Pow10Nat(6) == 1_000_000;
      DigitsAtFixed(s, 20, frac, 6);
    }
  }

  /** The fields of `p + "HH:MM:SS" + tail` for an 11-character prefix `p`. */
  lemma TimeDigits(s: string, p: string, hh: nat, mm: nat, ss: nat, tail: string)
    requires |p| == 11 && hh < 100 && mm < 100 && ss < 100
    requires s == p + (Fixed(hh, 2) + ":" + Fixed(mm, 2) + ":" + Fixed(ss, 2) + tail)
    ensures |s| == 19 + |tail| && s[19..] == tail && s[13] == ':' && s[16] == ':'
    ensures DigitsAt(s, 11, 2) == Some(hh) && DigitsAt(s, 14, 2) == Some(mm) && DigitsAt(s, 17, 2) == Some(ss)
  {
    ClockLayout(s, p, Fixed(hh, 2), Fixed(mm, 2), Fixed(ss, 2), tail);
    assert Pow10Nat(2) == 100;
    DigitsAtFixed(s, 11, hh, 2);
    DigitsAtFixed(s, 14, mm, 2);
    DigitsAtFixed(s, 17, ss, 2);
  }

  /** Where the three two-digit fields and the tail sit in `p + "hh:mm:ss" + tail`. */
  lemma ClockLayout(s: string, p: string, h: string, m: string, x: string, tail: string)
    requires |p| == 11 && |h| == 2 && |m| == 2 && |x| == 2
    requires s == p + (h + ":" + m + ":" + x + tail)
    ensures |s| == 19 + |tail| && s[19..] == tail && s[13] == ':' && s[16] == ':'
    ensures s[11..13] == h && s[14..16] == m && s[17..19] == x
  {
    var c := h + ":" + m + ":" + x + tail;
    assert c[0..2] == h;
    assert c[3..5] == m;
    assert c[6..8] == x;
    assert c[8..] == tail;
    OffsetSlice(s, p, c, 0, 2);
    OffsetSlice(s, p, c, 3, 5);
    OffsetSlice(s, p, c, 6, 8);
    OffsetSlice(s, p, c, 8, |c|);
    assert s[13] == c[2] && s[16] == c[5];
  }

  /** A slice of the second part of a concatenation, seen from the whole. */
  lemma OffsetSlice(s: string, p: string, c: string, i: nat, j: nat)
    requires s == p + c && i <= j <= |c|
    ensures s[|p| + i..|p| + j] == c[i..j]
  {
  }

  /** Hours, minutes, seconds and microseconds put back together give the time of day. */
  lemma TimeSplit(micros: nat)
    requires micros < MicrosPerDay
    ensures var secs := micros / 1_000_000;
      ((secs / 3600 * 60 + secs / 60 % 60) * 60 + secs % 60) * 1_000_000 + micros % 1_000_000 == micros
    ensures micros / 1_000_000 / 3600 < 24
  {
    var secs := micros / 1_000_000;
    var mins := secs / 60;
    assert micros == secs * 1_000_000 + micros % 1_000_000;
    assert secs == mins * 60 + secs % 60;
    assert mins == mins / 60 * 60 + mins % 60;
    ModUnique(secs, 3600, mins / 60, mins % 60 * 60 + secs % 60);
  }
}
