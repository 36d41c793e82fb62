/**
 Interval ids and the calendar behind them: UTC instants as milliseconds since
 0000-01-01T00:00 of the proleptic Gregorian calendar (ISO 8601), for the years
 0000 to 9999 whose ids have four year digits.
 */
module StatsCalendar {
  import opened Prelude

  const MS_PER_MINUTE: nat := 60_000
  const MS_PER_HOUR: nat := 3_600_000
  const MS_PER_DAY: nat := 86_400_000

  datatype Unit = Minute | Hour | Day | Month

  datatype Civil = Civil(year: nat, month: nat, day: nat, hour: nat, minute: nat)

  // ----------------------------------------------------------------- calendar

  predicate IsLeap(y: nat) {
    y % 4 == 0 && (y % 100 != 0 || y % 400 == 0)
  }

  function DaysIn(y: nat, m: nat): nat
    requires 1 <= m <= 12
  {
    if m == 2 then (if IsLeap(y) then 29 else 28)
    else if m == 4 || m == 6 || m == 9 || m == 11 then 30 else 31
  }

  function YearDays(y: nat): nat {
    if IsLeap(y) then 366 else 365
  }

  function DaysBeforeYear(y: nat): nat {
    if y == 0 then 0 else DaysBeforeYear(y - 1) + YearDays(y - 1)
  }

  function DaysBeforeMonth(y: nat, m: nat): nat
    requires 1 <= m <= 13
  {
    if m == 1 then 0 else DaysBeforeMonth(y, m - 1) + DaysIn(y, m - 1)
  }

  predicate ValidDay(y: nat, m: nat, d: nat) {
    1 <= m <= 12 && 1 <= d <= DaysIn(y, m)
  }

  predicate Valid(c: Civil) {
    c.year <= 9999 && ValidDay(c.year, c.month, c.day) && c.hour < 24 && c.minute < 60
  }

  function DayNumber(y: nat, m: nat, d: nat): nat
    requires ValidDay(y, m, d)
  {
    DaysBeforeYear(y) + DaysBeforeMonth(y, m) + d - 1
  }

  function MidnightMs(y: nat, m: nat, d: nat): nat
    requires ValidDay(y, m, d)
  {
    DayNumber(y, m, d) * MS_PER_DAY
  }

  /** The instant at which the civil minute begins. */
  function StartMs(c: Civil): nat
    requires Valid(c)
  {
    MidnightMs(c.year, c.month, c.day) + c.hour * MS_PER_HOUR + c.minute * MS_PER_MINUTE
  }

  function YearFrom(n: nat, y: nat): nat
    requires DaysBeforeYear(y) <= n
    decreases n - DaysBeforeYear(y)
  {
    if n < DaysBeforeYear(y + 1) then y else YearFrom(n, y + 1)
  }

  function MonthFrom(y: nat, n: nat, m: nat): nat
    requires 1 <= m <= 12 && DaysBeforeMonth(y, m) <= n
    decreases 12 - m
  {
    if m == 12 || n < DaysBeforeMonth(y, m + 1) then m else MonthFrom(y, n, m + 1)
  }

  /** The civil minute containing an instant. */
  function CivilOf(ms: nat): Civil {
    var rest := ms % MS_PER_DAY;
    CivilAt(ms / MS_PER_DAY, rest / MS_PER_HOUR, rest % MS_PER_HOUR / MS_PER_MINUTE)
  }

  /** The civil minute of a day given by its number. */
  function CivilAt(days: nat, hour: nat, minute: nat): Civil {
    var y := YearFrom(days, 0);
    assert DaysBeforeYear(y) <= days by { YearFromBounds(days, 0); }
    var n := days - DaysBeforeYear(y);
    var m := MonthFrom(y, n, 1);
    assert DaysBeforeMonth(y, m) <= n by { MonthFromBounds(y, n, 1); }
    Civil(y, m, n - DaysBeforeMonth(y, m) + 1, hour, minute)
  }

  lemma {:induction false} YearFromBounds(n: nat, y: nat)
    requires DaysBeforeYear(y) <= n
    ensures DaysBeforeYear(YearFrom(n, y)) <= n < DaysBeforeYear(YearFrom(n, y) + 1)
    decreases n - DaysBeforeYear(y)
  {
    if n >= DaysBeforeYear(y + 1) { YearFromBounds(n, y + 1); }
  }

  lemma {:induction false} MonthFromBounds(y: nat, n: nat, m: nat)
    requires 1 <= m <= 12 && DaysBeforeMonth(y, m) <= n
    ensures 1 <= MonthFrom(y, n, m) <= 12 && DaysBeforeMonth(y, MonthFrom(y, n, m)) <= n
    decreases 12 - m
  {
    if m < 12 && n >= DaysBeforeMonth(y, m + 1) { MonthFromBounds(y, n, m + 1); }
  }

  lemma {:induction false} YearsGrow(a: nat, b: nat)
    requires a <= b
    ensures DaysBeforeYear(a) + 365 * (b - a) <= DaysBeforeYear(b)
    decreases b
  {
    if a < b { YearsGrow(a, b - 1); }
  }

  lemma {:induction false} MonthsGrow(y: nat, a: nat, b: nat)
    requires 1 <= a <= b <= 13
    ensures DaysBeforeMonth(y, a) <= DaysBeforeMonth(y, b)
    decreases b
  {
    if a < b { MonthsGrow(y, a, b - 1); }
  }

  lemma YearTotal(y: nat)
    ensures DaysBeforeMonth(y, 13) == YearDays(y)
  {
    assert DaysBeforeMonth(y, 5) == DaysBeforeMonth(y, 4) + 30;
    assert DaysBeforeMonth(y, 9) == DaysBeforeMonth(y, 8) + 31 == DaysBeforeMonth(y, 7) + 62;
    assert DaysBeforeMonth(y, 7) == DaysBeforeMonth(y, 6) + 30 == DaysBeforeMonth(y, 5) + 61;
    assert DaysBeforeMonth(y, 11) == DaysBeforeMonth(y, 10) + 31 == DaysBeforeMonth(y, 9) + 61;
    assert DaysBeforeMonth(y, 13) == DaysBeforeMonth(y, 12) + 31 == DaysBeforeMonth(y, 11) + 61;
    assert DaysBeforeMonth(y, 3) == DaysBeforeMonth(y, 2) + DaysIn(y, 2);
  }

  lemma {:induction false} YearFromIs(n: nat, from: nat, y: nat)
    requires from <= y && DaysBeforeYear(from) <= n && DaysBeforeYear(y) <= n < DaysBeforeYear(y + 1)
    ensures YearFrom(n, from) == y
    decreases y - from
  {
    if from < y {
      YearsGrow(from + 1, y);
      YearFromIs(n, from + 1, y);
    }
  }

  lemma {:induction false} MonthFromIs(y: nat, n: nat, from: nat, m: nat)
    requires 1 <= from <= m <= 12 && DaysBeforeMonth(y, from) <= n
    requires DaysBeforeMonth(y, m) <= n < DaysBeforeMonth(y, m + 1)
    ensures MonthFrom(y, n, from) == m
    decreases m - from
  {
    if from < m {
      MonthsGrow(y, from + 1, m);
      MonthFromIs(y, n, from + 1, m);
    }
  }

  /** Every day number is the number of exactly the date it decodes to. */
  lemma DayRoundTrip(y: nat, m: nat, d: nat)
    requires ValidDay(y, m, d)
    ensures YearFrom(DayNumber(y, m, d), 0) == y
    ensures MonthFrom(y, DayNumber(y, m, d) - DaysBeforeYear(y), 1) == m
  {
    var n := DaysBeforeMonth(y, m) + d - 1;
    MonthsGrow(y, m + 1, 13);
    YearTotal(y);
    YearFromIs(DayNumber(y, m, d), 0, y);
    MonthFromIs(y, n, 1, m);
  }

  /** Any instant inside a civil minute decodes to that minute. */
  lemma CivilRoundTrip(c: Civil, within: nat)
    requires Valid(c) && within < MS_PER_MINUTE
    ensures CivilOf(StartMs(c) + within) == c
  {
    var n, rest := DayNumber(c.year, c.month, c.day), c.hour * MS_PER_HOUR + c.minute * MS_PER_MINUTE + within;
    ClockRoundTrip(n, c.hour, c.minute, within);
    assert StartMs(c) + within == n * MS_PER_DAY + rest;
    CivilOfIs(n * MS_PER_DAY + rest, n, rest, c.hour, c.minute);
    DateRoundTrip(c);
  }

  lemma CivilOfIs(ms: nat, n: nat, rest: nat, hour: nat, minute: nat)
    requires ms / MS_PER_DAY == n && ms % MS_PER_DAY == rest
    requires rest / MS_PER_HOUR == hour && rest % MS_PER_HOUR / MS_PER_MINUTE == minute
    ensures CivilOf(ms) == CivilAt(n, hour, minute)
  {}

  lemma DateRoundTrip(c: Civil)
    requires Valid(c)
    ensures CivilAt(DayNumber(c.year, c.month, c.day), c.hour, c.minute) == c
  {
    var days := DayNumber(c.year, c.month, c.day);
    DayRoundTrip(c.year, c.month, c.day);
    CivilAtIs(days, c.hour, c.minute, c.year, c.month);
  }

  lemma CivilAtIs(days: nat, hour: nat, minute: nat, y: nat, m: nat)
    requires YearFrom(days, 0) == y && DaysBeforeYear(y) <= days
    requires MonthFrom(y, days - DaysBeforeYear(y), 1) == m && 1 <= m <= 12
    requires DaysBeforeMonth(y, m) <= days - DaysBeforeYear(y)
    ensures CivilAt(days, hour, minute) ==
              Civil(y, m, days - DaysBeforeYear(y) - DaysBeforeMonth(y, m) + 1, hour, minute)
  {}

  /** Days, hours and minutes are read back from milliseconds. */
  lemma ClockRoundTrip(n: nat, hour: nat, minute: nat, within: nat)
    requires hour < 24 && minute < 60 && within < MS_PER_MINUTE
    ensures
      var rest := hour * MS_PER_HOUR + minute * MS_PER_MINUTE + within;
      var ms := n * MS_PER_DAY + rest;
      ms / MS_PER_DAY == n && ms % MS_PER_DAY == rest && rest / MS_PER_HOUR == hour &&
      rest % MS_PER_HOUR / MS_PER_MINUTE == minute
  {
    DivModUnique(n, hour * MS_PER_HOUR + minute * MS_PER_MINUTE + within, MS_PER_DAY);
    DivModUnique(hour, minute * MS_PER_MINUTE + within, MS_PER_HOUR);
    DivModUnique(minute, within, MS_PER_MINUTE);
  }

  /** Every instant of the years 0000 to 9999 lies in the minute it decodes to. */
  lemma CivilOfValid(ms: nat)
    requires ms < DaysBeforeYear(10000) * MS_PER_DAY
    ensures Valid(CivilOf(ms))
    ensures StartMs(CivilOf(ms)) <= ms < StartMs(CivilOf(ms)) + MS_PER_MINUTE
  {
    var days, rest := ms / MS_PER_DAY, ms % MS_PER_DAY;
    var c := CivilOf(ms);
    YearFromBounds(days, 0);
    if c.year > 9999 { YearsGrow(10000, c.year); }
    YearTotal(c.year);
    MonthFromBounds(c.year, days - DaysBeforeYear(c.year), 1);
    MonthFromBelow(c.year, days - DaysBeforeYear(c.year), 1);
  }

  lemma {:induction false} MonthFromBelow(y: nat, n: nat, m: nat)
    requires 1 <= m <= 12 && DaysBeforeMonth(y, m) <= n < DaysBeforeMonth(y, 13)
    ensures 1 <= MonthFrom(y, n, m) <= 12 && n < DaysBeforeMonth(y, MonthFrom(y, n, m) + 1)
    decreases 12 - m
  {
    if m < 12 && n >= DaysBeforeMonth(y, m + 1) { MonthFromBelow(y, n, m + 1); }
  }

  lemma DivModUnique(q: nat, r: nat, d: nat)
    requires r < d
    ensures (q * d + r) / d == q && (q * d + r) % d == r
  {
    var x := q * d + r;
    var k := x / d - q;
    assert k * d == r - x % d;
    assert k >= 1 ==> k * d >= d;
    assert k <= -1 ==> k * d + d <= 0;
  }

  lemma CeilStep(x: nat, k: nat)
    requires k > 0
    ensures (x + k) / k == (x + k - 1) / k + if x % k == 0 then 1 else 0
  {
    var q, r := x / k, x % k;
    assert x == q * k + r;
    DivModUnique(q + 1, r, k);
    if r == 0 {
      DivModUnique(q, k - 1, k);
    } else {
      DivModUnique(q + 1, r - 1, k);
    }
    assert (q + 1) * k == q * k + k;
  }

  lemma LeapMultiples(y: nat)
    ensures y % 400 == 0 ==> y % 100 == 0
    ensures y % 100 == 0 ==> y % 4 == 0
  {
    if y % 400 == 0 { DivModUnique(4 * (y / 400), 0, 100); }
    if y % 100 == 0 { DivModUnique(25 * (y / 100), 0, 4); }
  }

  /** The day count has the usual closed form, so 1970-01-01 is day 719528. */
  lemma {:induction false} DaysBeforeYearClosedForm(y: nat)
    ensures DaysBeforeYear(y) == 365 * y + (y + 3) / 4 - (y + 99) / 100 + (y + 399) / 400
  {
    if y > 0 {
      DaysBeforeYearClosedForm(y - 1);
      CeilStep(y - 1, 4);
      CeilStep(y - 1, 100);
      CeilStep(y - 1, 400);
      LeapMultiples(y - 1);
    }
  }

  lemma UnixEpochDay()
    ensures DayNumber(1970, 1, 1) == 719528
  {
    DaysBeforeYearClosedForm(1970);
  }

  // ------------------------------------------------------------ chronology

  /** The beginning of the unit interval containing `c`. */
  function Truncate(u: Unit, c: Civil): Civil {
    match u
    case Minute => c
    case Hour => c.(minute := 0)
    case Day => c.(hour := 0, minute := 0)
    case Month => c.(day := 1, hour := 0, minute := 0)
  }

  /** The last civil minute of the unit interval containing `c`. */
  function LastMinute(u: Unit, c: Civil): Civil
    requires Valid(c)
  {
    match u
    case Minute => c
    case Hour => c.(minute := 59)
    case Day => c.(hour := 23, minute := 59)
    case Month => c.(day := DaysIn(c.year, c.month), hour := 23, minute := 59)
  }

  /** Lexicographic order of the fields. */
  predicate Before(a: Civil, b: Civil) {
    a.year < b.year || (a.year == b.year && (
    a.month < b.month || (a.month == b.month && (
    a.day < b.day || (a.day == b.day && (
    a.hour < b.hour || (a.hour == b.hour && a.minute < b.minute)))))))
  }

  lemma DateOrder(a: Civil, b: Civil)
    requires Valid(a) && Valid(b) && Before(Truncate(Day, a), Truncate(Day, b))
    ensures DayNumber(a.year, a.month, a.day) < DayNumber(b.year, b.month, b.day)
  {
    MonthsGrow(a.year, a.month + 1, 13);
    YearTotal(a.year);
    if a.year < b.year {
      YearsGrow(a.year + 1, b.year);
    } else if a.month < b.month {
      MonthsGrow(a.year, a.month + 1, b.month);
    }
  }

  /** Field order is time order. */
  lemma OrderIsChronological(a: Civil, b: Civil)
    requires Valid(a) && Valid(b)
    ensures Before(a, b) <==> StartMs(a) < StartMs(b)
  {
    if Before(Truncate(Day, a), Truncate(Day, b)) {
      DateOrder(a, b);
    } else if Before(Truncate(Day, b), Truncate(Day, a)) {
      DateOrder(b, a);
    }
  }

  // ----------------------------------------------------------- interval ids

  function Pow10(w: nat): nat {
    if w == 0 then 1 else 10 * Pow10(w - 1)
  }

  function DigitChar(d: nat): char
    requires d < 10
  {
    ('0' as int + d) as char
  }

  /** Zero-padded decimal of fixed width. */
  function Digits(n: nat, w: nat): (s: string)
    ensures |s| == w
  {
    if w == 0 then "" else Digits(n / 10, w - 1) + [DigitChar(n % 10)]
  }

  /** `%Y-%m`, `%Y-%m-%d`, `%Y-%m-%d:%H` and `%Y-%m-%d:%H:%M`. */
  function Format(u: Unit, c: Civil): (s: string)
    ensures |s| == IdLength(u)
    decreases match u case Month => 0 case Day => 1 case Hour => 2 case Minute => 3
  {
    match u
    case Month => Digits(c.year, 4) + "-" + Digits(c.month, 2)
    case Day => Format(Month, c) + "-" + Digits(c.day, 2)
    case Hour => Format(Day, c) + ":" + Digits(c.hour, 2)
    case Minute => Format(Hour, c) + ":" + Digits(c.minute, 2)
  }

  lemma DigitsExample()
    ensures Digits(2026, 4) == "2026" && Digits(2, 2) == "02" && Digits(3, 2) == "03"
    ensures Digits(15, 2) == "15" && Digits(4, 2) == "04"
  {}

  /** The ids of one minute, as a client writes them. */
  lemma FormatExample()
    ensures
      var c := Civil(2026, 2, 3, 15, 4);
      && Format(Month, c) == "2026" + "-02" && Format(Day, c) == "2026" + "-02" + "-03"
      && Format(Hour, c) == "2026" + "-02" + "-03" + ":15"
      && Format(Minute, c) == "2026" + "-02" + "-03" + ":15" + ":04"
  {
    DigitsExample();
    assert "-" + "02" == "-02" && "-" + "03" == "-03" && ":" + "15" == ":15" && ":" + "04" == ":04";
  }

  function IdLength(u: Unit): nat {
    match u
    case Month => 7
    case Day => 10
    case Hour => 13
    case Minute => 16
  }

  function IntervalId(u: Unit, ms: nat): string {
    Format(u, CivilOf(ms))
  }

  function ParseDigits(s: string): Option<nat> {
    if s == [] then Some(0) else
      var last := s[|s| - 1];
      match ParseDigits(s[..|s| - 1])
      case None => None
      case Some(n) => if '0' <= last <= '9' then Some(10 * n + (last as int - '0' as int)) else None
  }

  /** Reads a canonical id (exactly the digits and separators of its length) as its first minute. */
  function ParseIntervalStart(v: string): Option<Civil> {
    if |v| != 7 && |v| != 10 && |v| != 13 && |v| != 16 then None
    else if v[4] != '-' || (|v| >= 10 && v[7] != '-') || (|v| >= 13 && v[10] != ':') ||
         (|v| == 16 && v[13] != ':') then None
    else
      var year, month := ParseDigits(v[..4]), ParseDigits(v[5..7]);
      var day := if |v| >= 10 then ParseDigits(v[8..10]) else Some(1);
      var hour := if |v| >= 13 then ParseDigits(v[11..13]) else Some(0);
      var minute := if |v| == 16 then ParseDigits(v[14..]) else Some(0);
      if year.None? || month.None? || day.None? || hour.None? || minute.None? then None
      else
        var c := Civil(year.value, month.value, day.value, hour.value, minute.value);
        if Valid(c) then Some(c) else None
  }

  /** The id, at a coarser unit, of the interval containing a stored id. */
  function RollupId(u: Unit, id: string): Option<string> {
    match ParseIntervalStart(id)
    case None => None
    case Some(c) => Some(IntervalId(u, StartMs(c)))
  }

  /** The first instant after the interval named by an id of the given length. */
  function IntervalEndMs(c: Civil, length: nat): (end: nat)
    requires Valid(c)
    ensures end > 0
  {
    if length == 7 then
      if c.month == 12 then MidnightMs(c.year + 1, 1, 1) else MidnightMs(c.year, c.month + 1, 1)
    else if length == 10 then StartMs(c) + MS_PER_DAY
    else if length == 13 then StartMs(c) + MS_PER_HOUR
    else StartMs(c) + MS_PER_MINUTE
  }

  /** A textual query bound, reduced to the query's unit. */
  function NormalizeBound(v: string, u: Unit, isEnd: bool): Option<string> {
    match ParseIntervalStart(v)
    case None => None
    case Some(c) =>
      Some(IntervalId(u, if isEnd then IntervalEndMs(c, |v|) - 1 else StartMs(c)))
  }

  // String order of ids is time order.

  lemma {:induction false} DigitsOrder(m: nat, n: nat, w: nat)
    requires m < Pow10(w) && n < Pow10(w)
    ensures StrLt(Digits(m, w), Digits(n, w)) <==> m < n
    ensures Digits(m, w) == Digits(n, w) <==> m == n
  {
    if w > 0 {
      DigitsOrder(m / 10, n / 10, w - 1);
      var a, b := Digits(m / 10, w - 1), Digits(n / 10, w - 1);
      var x, y := [DigitChar(m % 10)], [DigitChar(n % 10)];
      StrLtConcat(a, b, x, y);
      assert StrLt(x, y) <==> m % 10 < n % 10;
      assert a + x == b + y <==> a == b && x == y by {
        if a + x == b + y {
          assert a == (a + x)[..w - 1] && b == (b + y)[..w - 1];
          assert x == (a + x)[w - 1..] && y == (b + y)[w - 1..];
        }
      }
    }
  }

  /** Appending one more fixed-width field refines the order. */
  lemma FieldOrder(a: string, b: string, sep: string, m: nat, n: nat, w: nat)
    requires |a| == |b| && m < Pow10(w) && n < Pow10(w)
    ensures StrLt(a + sep + Digits(m, w), b + sep + Digits(n, w)) <==> StrLt(a, b) || (a == b && m < n)
    ensures a + sep + Digits(m, w) == b + sep + Digits(n, w) <==> a == b && m == n
  {
    var x, y := Digits(m, w), Digits(n, w);
    DigitsOrder(m, n, w);
    StrLtConcat(a + sep, b + sep, x, y);
    StrLtConcat(a, b, sep, sep);
    StrLtIrreflexive(sep);
    assert a + sep == b + sep <==> a == b by {
      if a + sep == b + sep { assert a == (a + sep)[..|a|] && b == (b + sep)[..|b|]; }
    }
    assert a + sep + x == b + sep + y <==> a + sep == b + sep && x == y by {
      var k := |a + sep|;
      if a + sep + x == b + sep + y {
        assert a + sep == (a + sep + x)[..k] && b + sep == (b + sep + y)[..k];
        assert x == (a + sep + x)[k..] && y == (b + sep + y)[k..];
      }
    }
  }

  lemma WidthsSuffice(c: Civil)
    requires Valid(c)
    ensures c.year < Pow10(4) && c.month < Pow10(2) && c.day < Pow10(2) && c.hour < Pow10(2) && c.minute < Pow10(2)
  {
    assert Pow10(1) == 10 && Pow10(2) == 100 && Pow10(3) == 1000;
  }

  /** For four-digit years, ids of one unit are ordered and distinguished exactly as time is. */
  lemma {:induction false} IdOrder(u: Unit, a: Civil, b: Civil)
    requires Valid(a) && Valid(b)
    ensures StrLt(Format(u, a), Format(u, b)) <==> Before(Truncate(u, a), Truncate(u, b))
    ensures Format(u, a) == Format(u, b) <==> Truncate(u, a) == Truncate(u, b)
    decreases match u case Month => 0 case Day => 1 case Hour => 2 case Minute => 3
  {
    WidthsSuffice(a);
    WidthsSuffice(b);
    match u {
      case Month =>
        DigitsOrder(a.year, b.year, 4);
        FieldOrder(Digits(a.year, 4), Digits(b.year, 4), "-", a.month, b.month, 2);
      case Day =>
        IdOrder(Month, a, b);
        FieldOrder(Format(Month, a), Format(Month, b), "-", a.day, b.day, 2);
      case Hour =>
        IdOrder(Day, a, b);
        FieldOrder(Format(Day, a), Format(Day, b), ":", a.hour, b.hour, 2);
      case Minute =>
        IdOrder(Hour, a, b);
        FieldOrder(Format(Hour, a), Format(Hour, b), ":", a.minute, b.minute, 2);
    }
  }

  lemma IdLe(u: Unit, a: Civil, b: Civil)
    requires Valid(a) && Valid(b)
    ensures StrLe(Format(u, a), Format(u, b)) <==> !Before(Truncate(u, b), Truncate(u, a))
  {
    IdOrder(u, a, b);
    IdOrder(u, b, a);
    StrLtTotal(Format(u, a), Format(u, b));
  }

  // Parsing undoes formatting.

  lemma {:induction false} DigitsRoundTrip(n: nat, w: nat)
    requires n < Pow10(w)
    ensures ParseDigits(Digits(n, w)) == Some(n)
  {
    if w > 0 {
      var s := Digits(n, w);
      DigitsRoundTrip(n / 10, w - 1);
      assert s[..w - 1] == Digits(n / 10, w - 1);
    }
  }

  lemma TruncateValid(u: Unit, c: Civil)
    requires Valid(c)
    ensures Valid(Truncate(u, c)) && Valid(LastMinute(u, c))
  {}

  lemma FormatParts(c: Civil)
    ensures
      var s := Format(Minute, c);
      && s[..7] == Format(Month, c) && s[..10] == Format(Day, c) && s[..13] == Format(Hour, c)
      && s[..4] == Digits(c.year, 4) && s[4] == '-' && s[5..7] == Digits(c.month, 2)
      && s[7] == '-' && s[8..10] == Digits(c.day, 2)
      && s[10] == ':' && s[11..13] == Digits(c.hour, 2)
      && s[13] == ':' && s[14..] == Digits(c.minute, 2)
  {
    var m, d, h, s := Format(Month, c), Format(Day, c), Format(Hour, c), Format(Minute, c);
    assert s[..13] == h && h[..10] == d && d[..7] == m;
    assert s[..10] == h[..10] && s[..7] == d[..7];
    assert m[..4] == Digits(c.year, 4) && m[5..7] == Digits(c.month, 2);
    assert d[8..10] == Digits(c.day, 2) && h[11..13] == Digits(c.hour, 2);
    assert s[..4] == m[..4] && s[5..7] == m[5..7] && s[8..10] == d[8..10] && s[11..13] == h[11..13];
  }

  lemma ParseFormat(u: Unit, c: Civil)
    requires Valid(c)
    ensures ParseIntervalStart(Format(u, c)) == Some(Truncate(u, c))
  {
    var s, v := Format(Minute, c), Format(u, c);
    FormatParts(c);
    WidthsSuffice(c);
    DigitsRoundTrip(c.year, 4);
    DigitsRoundTrip(c.month, 2);
    DigitsRoundTrip(c.day, 2);
    DigitsRoundTrip(c.hour, 2);
    DigitsRoundTrip(c.minute, 2);
    assert v == s[..|v|];
    assert v[..4] == s[..4] && v[5..7] == s[5..7];
    if |v| >= 10 { assert v[8..10] == s[8..10]; }
    if |v| >= 13 { assert v[11..13] == s[11..13]; }
    TruncateValid(u, c);
  }

  // ---------------------------------------------------------- main theorems

  function Rank(u: Unit): nat {
    match u case Minute => 0 case Hour => 1 case Day => 2 case Month => 3
  }

  function Coarser(u: Unit, v: Unit): Unit {
    if Rank(u) < Rank(v) then v else u
  }

  lemma IntervalIdOf(u: Unit, c: Civil)
    requires Valid(c)
    ensures IntervalId(u, StartMs(c)) == Format(u, c)
  {
    CivilOfStart(c);
  }

  lemma CivilOfStart(c: Civil)
    requires Valid(c)
    ensures CivilOf(StartMs(c)) == c
  {
    CivilRoundTrip(c, 0);
  }

  lemma FormatTruncate(u: Unit, v: Unit, c: Civil)
    requires Rank(v) <= Rank(u)
    ensures Format(u, Truncate(v, c)) == Format(u, c)
  {}

  /** Rolling an id up is naming the containing interval, and rolling up in two hops is one hop. */
  lemma RollupTwice(u: Unit, v: Unit, c: Civil)
    requires Valid(c) && Rank(u) <= Rank(v)
    ensures RollupId(v, Format(Minute, c)) == Some(Format(v, c))
    ensures RollupId(u, Format(Minute, c)) == Some(Format(u, c))
    ensures RollupId(v, Format(u, c)) == Some(Format(v, c))
  {
    ParseFormat(Minute, c);
    ParseFormat(u, c);
    TruncateValid(u, c);
    IntervalIdOf(u, c);
    IntervalIdOf(v, c);
    IntervalIdOf(v, Truncate(u, c));
    FormatTruncate(v, u, c);
  }

  /** One millisecond before an interval ends lies in its last minute, month ends included. */
  lemma IntervalEnd(u: Unit, c: Civil)
    requires Valid(c)
    ensures
      var end := IntervalEndMs(Truncate(u, c), IdLength(u));
      CivilOf(end - 1) == LastMinute(u, c)
  {
    TruncateValid(u, c);
    LastInstant(u, c);
    CivilRoundTrip(LastMinute(u, c), MS_PER_MINUTE - 1);
  }

  lemma MonthEnd(c: Civil)
    requires Valid(c)
    ensures
      var days := DaysIn(c.year, c.month);
      IntervalEndMs(c.(day := 1, hour := 0, minute := 0), 7) == (DayNumber(c.year, c.month, days) + 1) * MS_PER_DAY
  {
    if c.month == 12 {
      YearTotal(c.year);
      assert DaysBeforeMonth(c.year, 13) == DaysBeforeMonth(c.year, 12) + 31;
    }
  }

  lemma LastInstant(u: Unit, c: Civil)
    requires Valid(c)
    ensures Valid(Truncate(u, c)) &&
            IntervalEndMs(Truncate(u, c), IdLength(u)) - 1 == StartMs(LastMinute(u, c)) + (MS_PER_MINUTE - 1)
  {
    TruncateValid(u, c);
    if u == Month { MonthEnd(c); }
  }

  lemma BoundsOf(v: Unit, u: Unit, c: Civil)
    requires Valid(c)
    ensures NormalizeBound(Format(v, c), u, false) == Some(Format(u, Truncate(v, c)))
    ensures NormalizeBound(Format(v, c), u, true) == Some(Format(u, LastMinute(v, c)))
  {
    ParseFormat(v, c);
    TruncateValid(v, c);
    IntervalIdOf(u, Truncate(v, c));
    IntervalEnd(v, c);
  }

  /** Whether a query at unit `u` bounded by `start` and `end` keeps a stored minute. */
  predicate Selects(u: Unit, start: string, end: string, minuteId: string) {
    match (NormalizeBound(start, u, false), NormalizeBound(end, u, true), RollupId(u, minuteId))
    case (Some(lo), Some(hi), Some(id)) => StrLe(lo, id) && StrLe(id, hi)
    case _ => false
  }

  lemma WithinIsTruncation(u: Unit, v: Unit, c: Civil, m: Civil)
    requires Valid(c) && Valid(m)
    ensures
      var lo, hi, x := Truncate(u, Truncate(v, c)), Truncate(u, LastMinute(v, c)), Truncate(u, m);
      !Before(x, lo) && !Before(hi, x) <==> Truncate(Coarser(u, v), m) == Truncate(Coarser(u, v), c)
  {
    match v {
      case Minute =>
      case Hour =>
      case Day =>
      case Month =>
    }
  }

  /**
   A query bounded on both sides by one interval `v` selects exactly the minutes inside `v`,
   or inside the surrounding interval of the query's unit when that unit is coarser. Month
   lengths, leap years and December are covered because every date is.
   */
  lemma BoundsSelectInterval(u: Unit, v: Unit, c: Civil, m: Civil)
    requires Valid(c) && Valid(m)
    ensures Selects(u, Format(v, c), Format(v, c), Format(Minute, m)) <==>
            Truncate(Coarser(u, v), m) == Truncate(Coarser(u, v), c)
  {
    var first, last := Truncate(v, c), LastMinute(v, c);
    BoundsOf(v, u, c);
    RollupTwice(Minute, u, m);
    var id, start := Format(Minute, m), Format(v, c);
    assert Selects(u, start, start, id) <==>
           StrLe(Format(u, first), Format(u, m)) && StrLe(Format(u, m), Format(u, last));
    TruncateValid(v, c);
    IdLe(u, first, m);
    IdLe(u, m, last);
    WithinIsTruncation(u, v, c, m);
  }

  /** A numeric bound names the unit interval containing its instant, from both sides. */
  lemma TimestampBoundSelectsUnit(u: Unit, ms: nat, m: Civil)
    requires ms < DaysBeforeYear(10000) * MS_PER_DAY && Valid(m)
    ensures
      var bound := IntervalId(u, ms);
      StrLe(bound, Format(u, m)) && StrLe(Format(u, m), bound) <==>
      Truncate(u, m) == Truncate(u, CivilOf(ms))
  {
    var c := CivilOf(ms);
    CivilOfValid(ms);
    IdOrder(u, c, m);
    StrLtTotal(Format(u, c), Format(u, m));
  }
}
