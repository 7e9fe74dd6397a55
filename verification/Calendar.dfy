/** Civil dates, day numbers and the calendar ranges of SAT requests. Instants are whole
    seconds since 1 January of year 0, 00:00 UTC. */
module Calendar {
  import opened Options

  const DAY: int := 86_400

  datatype Date = Date(year: nat, month: nat, day: nat) {
    predicate Valid() {
      1 <= month <= 12 && 1 <= day <= DaysInMonth(year, month)
    }
  }

  predicate Leap(y: nat) {
    y % 4 == 0 && (y % 100 != 0 || y % 400 == 0)
  }

  function DaysInMonth(y: nat, m: nat): nat {
    if m == 2 then (if Leap(y) then 29 else 28)
    else if m == 4 || m == 6 || m == 9 || m == 11 then 30
    else 31
  }

  /** Days in the years before `y`. */
  function DaysBeforeYear(y: nat): nat {
    365 * y + (y + 3) / 4 - (y + 99) / 100 + (y + 399) / 400
  }

  /** Days in the months before month `m` of year `y`. */
  function DaysBeforeMonth(y: nat, m: nat): nat
    requires 1 <= m <= 13
  {
    if m == 1 then 0 else DaysBeforeMonth(y, m - 1) + DaysInMonth(y, m - 1)
  }

  function DayNumber(d: Date): nat
    requires d.Valid()
  {
    DaysBeforeYear(d.year) + DaysBeforeMonth(d.year, d.month) + d.day - 1
  }

  function YearLength(y: nat): nat {
    if Leap(y) then 366 else 365
  }

  lemma Every4(y: nat)
    ensures (y + 4) / 4 == (y + 3) / 4 + if y % 4 == 0 then 1 else 0
  {
  }

  lemma Every100(y: nat)
    ensures (y + 100) / 100 == (y + 99) / 100 + if y % 100 == 0 then 1 else 0
  {
  }

  lemma Every400(y: nat)
    ensures (y + 400) / 400 == (y + 399) / 400 + if y % 400 == 0 then 1 else 0
  {
  }

  lemma CenturyRules(y: nat)
    ensures y % 100 == 0 ==> y % 4 == 0
    ensures y % 400 == 0 ==> y % 100 == 0
  {
    if y % 100 == 0 {
      assert y == 4 * (25 * (y / 100));
    }
    if y % 400 == 0 {
      assert y == 100 * (4 * (y / 400));
    }
  }

  lemma NextYear(y: nat)
    ensures DaysBeforeYear(y + 1) == DaysBeforeYear(y) + YearLength(y)
  {
    Every4(y);
    Every100(y);
    Every400(y);
    CenturyRules(y);
  }

  lemma MonthsAddUp(y: nat)
    ensures DaysBeforeMonth(y, 13) == YearLength(y)
  {
    assert DaysBeforeMonth(y, 2) == 31;
    assert DaysBeforeMonth(y, 4) == DaysBeforeMonth(y, 3) + 31;
    assert DaysBeforeMonth(y, 6) == DaysBeforeMonth(y, 5) + 31;
    assert DaysBeforeMonth(y, 8) == DaysBeforeMonth(y, 7) + 31;
    assert DaysBeforeMonth(y, 10) == DaysBeforeMonth(y, 9) + 30;
    assert DaysBeforeMonth(y, 12) == DaysBeforeMonth(y, 11) + 30;
  }

  /** The year of day `n`, searched from year `y` on. */
  function YearFrom(n: nat, y: nat): (r: nat)
    requires DaysBeforeYear(y) <= n
    ensures DaysBeforeYear(r) <= n < DaysBeforeYear(r + 1)
    decreases n - DaysBeforeYear(y)
  {
    NextYear(y);
    if n < DaysBeforeYear(y + 1) then y else YearFrom(n, y + 1)
  }

  /** The month of the `n`-th day of year `y`, searched from month `m` on. */
  function MonthFrom(y: nat, n: nat, m: nat): (r: nat)
    requires 1 <= m <= 12 && DaysBeforeMonth(y, m) <= n < YearLength(y)
    ensures 1 <= r <= 12 && DaysBeforeMonth(y, r) <= n < DaysBeforeMonth(y, r + 1)
    decreases 12 - m
  {
    MonthsAddUp(y);
    if n < DaysBeforeMonth(y, m + 1) then m else MonthFrom(y, n, m + 1)
  }

  function FromDayNumber(n: nat): (d: Date)
    ensures d.Valid() && DayNumber(d) == n
  {
    var y := YearFrom(n, 0);
    NextYear(y);
    var rest := n - DaysBeforeYear(y);
    var m := MonthFrom(y, rest, 1);
    Date(y, m, rest - DaysBeforeMonth(y, m) + 1)
  }

  lemma {:induction false} YearsMonotone(y: nat, y': nat)
    requires y < y'
    ensures DaysBeforeYear(y + 1) <= DaysBeforeYear(y')
    decreases y' - y
  {
    NextYear(y);
    if y + 1 < y' {
      YearsMonotone(y + 1, y');
      NextYear(y + 1);
    }
  }

  lemma {:induction false} MonthsMonotone(y: nat, m: nat, m': nat)
    requires 1 <= m < m' <= 13
    ensures DaysBeforeMonth(y, m + 1) <= DaysBeforeMonth(y, m')
    decreases m' - m
  {
    if m + 1 < m' {
      MonthsMonotone(y, m + 1, m');
    }
  }

  /** Where a date lies within its year. */
  lemma WithinYear(d: Date)
    requires d.Valid()
    ensures DaysBeforeYear(d.year) <= DayNumber(d) < DaysBeforeYear(d.year + 1)
  {
    NextYear(d.year);
    MonthsAddUp(d.year);
    MonthsMonotone(d.year, d.month, 13);
  }

  /** The day number orders dates as the calendar does; in particular no two dates share one. */
  lemma DayNumberOrders(a: Date, b: Date)
    requires a.Valid() && b.Valid()
    ensures DayNumber(a) < DayNumber(b) <==>
              a.year < b.year || (a.year == b.year && (a.month < b.month || (a.month == b.month && a.day < b.day)))
    ensures DayNumber(a) == DayNumber(b) <==> a == b
  {
    WithinYear(a);
    WithinYear(b);
    if a.year < b.year {
      YearsMonotone(a.year, b.year);
    } else if b.year < a.year {
      YearsMonotone(b.year, a.year);
    } else if a.month < b.month {
      MonthsMonotone(a.year, a.month, b.month);
    } else if b.month < a.month {
      MonthsMonotone(a.year, b.month, a.month);
    }
  }

  /** Dates and day numbers correspond one to one. */
  lemma CivilBijection(d: Date, n: nat)
    requires d.Valid()
    ensures FromDayNumber(DayNumber(d)) == d
    ensures FromDayNumber(n).Valid() && DayNumber(FromDayNumber(n)) == n
  {
    DayNumberOrders(FromDayNumber(DayNumber(d)), d);
  }

  /** The calendar is the Gregorian one: from the first of one month to the first of the next there are
      31, 30, 28 or in leap years 29 days, day 0 being 1 January of year 0. */
  lemma GregorianMonths(y: nat, m: nat, day: nat)
    requires Date(y, m, day).Valid()
    ensures Date(y, m, 1).Valid() && DayNumber(Date(y, m, day)) == DayNumber(Date(y, m, 1)) + day - 1
    ensures var next := if m == 12 then Date(y + 1, 1, 1) else Date(y, m + 1, 1);
            && next.Valid()
            && DayNumber(next) - DayNumber(Date(y, m, 1))
               == if m == 4 || m == 6 || m == 9 || m == 11 then 30
                  else if m != 2 then 31
                  else if y % 400 == 0 || (y % 4 == 0 && y % 100 != 0) then 29 else 28
    ensures DayNumber(Date(0, 1, 1)) == 0
  {
    if m == 12 {
      NextYear(y);
      MonthsAddUp(y);
      assert DaysBeforeMonth(y, 13) == DaysBeforeMonth(y, 12) + 31;
    }
    CenturyRules(y);
  }

  // ------------------------------------------------------------ YYYY-MM-DD

  function Digit(n: nat): char
    requires n < 10
  {
    '0' + n as char
  }

  predicate IsDigit(c: char) {
    '0' <= c <= '9'
  }

  function DigitValue(c: char): nat
    requires IsDigit(c)
  {
    (c - '0') as nat
  }

  function Two(n: nat): string
    requires n < 100
  {
    [Digit(n / 10), Digit(n % 10)]
  }

  function FormatDate(d: Date): string
    requires d.Valid() && d.year <= 9999
  {
    Two(d.year / 100) + Two(d.year % 100) + "-" + Two(d.month) + "-" + Two(d.day)
  }

  function ReadTwo(s: string, i: nat): nat
    requires i + 1 < |s| && IsDigit(s[i]) && IsDigit(s[i + 1])
  {
    10 * DigitValue(s[i]) + DigitValue(s[i + 1])
  }

  /** Reading a calendar date: four, two and two digits, a real month and a real day. */
  function ParseDate(s: string): Option<Date> {
    if |s| == 10 && s[4] == '-' && s[7] == '-'
       && (forall i :: 0 <= i < 10 && i != 4 && i != 7 ==> IsDigit(s[i])) then
      var d := Date(100 * ReadTwo(s, 0) + ReadTwo(s, 2), ReadTwo(s, 5), ReadTwo(s, 8));
      if d.Valid() then Some(d) else None
    else None
  }

  lemma TwoReadBack(n: nat)
    requires n < 100
    ensures IsDigit(Two(n)[0]) && IsDigit(Two(n)[1]) && ReadTwo(Two(n), 0) == n
  {
  }

  /** What is formatted is read back. */
  lemma ParseFormat(d: Date)
    requires d.Valid() && d.year <= 9999
    ensures ParseDate(FormatDate(d)) == Some(d)
  {
    var s := FormatDate(d);
    assert |s| == 10;
    TwoReadBack(d.year / 100);
    TwoReadBack(d.year % 100);
    TwoReadBack(d.month);
    TwoReadBack(d.day);
    assert s[0..2] == Two(d.year / 100) && s[2..4] == Two(d.year % 100) && s[5..7] == Two(d.month) && s[8..10] == Two(d.day);
    assert s[0] == s[0..2][0] && s[1] == s[0..2][1] && s[2] == s[2..4][0] && s[3] == s[2..4][1];
    assert s[5] == s[5..7][0] && s[6] == s[5..7][1] && s[8] == s[8..10][0] && s[9] == s[8..10][1];
  }

  lemma TwoWritten(s: string, i: nat)
    requires i + 1 < |s| && IsDigit(s[i]) && IsDigit(s[i + 1])
    ensures ReadTwo(s, i) < 100 && Two(ReadTwo(s, i)) == [s[i], s[i + 1]]
  {
  }

  lemma ReadWritten(s: string, d: Date)
    requires ParseDate(s) == Some(d)
    ensures s == FormatDate(d)
  {
    TwoWritten(s, 0);
    TwoWritten(s, 2);
    TwoWritten(s, 5);
    TwoWritten(s, 8);
    assert d.year / 100 == ReadTwo(s, 0) && d.year % 100 == ReadTwo(s, 2);
    assert s == [s[0], s[1]] + [s[2], s[3]] + "-" + [s[5], s[6]] + "-" + [s[8], s[9]];
  }

  /** And nothing else is read as that date. */
  lemma ParseExact(s: string, d: Date)
    ensures ParseDate(s) == Some(d) <==> d.Valid() && d.year <= 9999 && s == FormatDate(d)
  {
    if d.Valid() && d.year <= 9999 && s == FormatDate(d) {
      ParseFormat(d);
    }
    if ParseDate(s) == Some(d) {
      ReadWritten(s, d);
    }
  }

  /** The number a digit stands for. */
  function Worth(c: char): int {
    c as int - '0' as int
  }

  /** Year, month and day are written in this order, in four, two and two decimal digits. */
  lemma FormatLayout(d: Date)
    requires d.Valid() && d.year <= 9999
    ensures var s := FormatDate(d);
            && |s| == 10 && s[4] == '-' && s[7] == '-'
            && (forall i :: 0 <= i < 10 && i != 4 && i != 7 ==> 0 <= Worth(s[i]) <= 9)
            && 1000 * Worth(s[0]) + 100 * Worth(s[1]) + 10 * Worth(s[2]) + Worth(s[3]) == d.year
            && 10 * Worth(s[5]) + Worth(s[6]) == d.month && 10 * Worth(s[8]) + Worth(s[9]) == d.day
  {
  }

  // ------------------------------------------------------------ calendar ranges

  /** Midnight UTC of a date, the label under which dates are stored. */
  function Midnight(d: Date): int
    requires d.Valid()
  {
    DayNumber(d) * DAY
  }

  lemma MidnightInSeconds(d: Date)
    requires d.Valid()
    ensures Midnight(d) == 24 * 60 * 60 * DayNumber(d)
  {
  }

  /** The UTC calendar date of an instant. */
  function DateOf(t: int): (d: Date)
    requires t >= 0
    ensures d.Valid() && Midnight(d) <= t < Midnight(d) + DAY
  {
    FromDayNumber(t / DAY)
  }

  lemma DateOfMidnight(d: Date)
    requires d.Valid()
    ensures Midnight(d) >= 0 && DateOf(Midnight(d)) == d
  {
    assert 0 <= Midnight(d);
    DayNumberOrders(DateOf(Midnight(d)), d);
  }

  /** `now` seen on a clock in Mexico City, `offset` being its distance from UTC at that instant. */
  function MXCalendarDate(now: int, offset: int): Date
    requires now + offset >= 0
  {
    DateOf(now + offset)
  }

  datatype RangeResult =
    | Ok(start: int, endExclusive: int, endEffective: string, clamped: bool)
    | Failed(clamped: bool)

  /** `AdminEnqueueCalendarRange` */
  function CalendarRange(startStr: string, endStr: string): RangeResult {
    match (ParseDate(startStr), ParseDate(endStr))
    case (Some(s), Some(e)) =>
      var endExclusive := Midnight(e) + DAY;
      if Midnight(s) < endExclusive then Ok(Midnight(s), endExclusive, endStr, false) else Failed(false)
    case _ => Failed(false)
  }

  /** `AdminEnqueueCalendarRangeClamped`: the end is capped to today's date in Mexico. */
  function CalendarRangeClamped(startStr: string, endStr: string, today: Date): RangeResult
    requires today.Valid() && today.year <= 9999
  {
    match (ParseDate(startStr), ParseDate(endStr))
    case (Some(s), Some(e)) =>
      var clamped := Midnight(e) > Midnight(today);
      var endDay := if clamped then today else e;
      if endDay.year > 9999 then Failed(clamped)
      else
        var endExclusive := Midnight(endDay) + DAY;
        if Midnight(s) < endExclusive then Ok(Midnight(s), endExclusive, FormatDate(endDay), clamped) else Failed(clamped)
    case _ => Failed(false)
  }

  /** What the clamped range is: it exists exactly when both dates are real and the start is
      neither after the end nor in Mexico's future, and then runs from the start date through
      the earlier of the end date and today, so never past today. */
  lemma ClampedRangeExact(startStr: string, endStr: string, today: Date)
    requires today.Valid() && today.year <= 9999
    ensures var r := CalendarRangeClamped(startStr, endStr, today);
            var (s, e) := (ParseDate(startStr), ParseDate(endStr));
            && (r.Ok? <==> s.Some? && e.Some? && DayNumber(s.value) <= DayNumber(e.value)
                           && DayNumber(s.value) <= DayNumber(today))
            && (r.Ok? ==>
                  && (r.clamped <==> DayNumber(today) < DayNumber(e.value))
                  && r.start == 86_400 * DayNumber(s.value) && r.start < r.endExclusive <= 86_400 * (DayNumber(today) + 1)
                  && r.endExclusive == 86_400 * (DayNumber(if r.clamped then today else e.value) + 1)
                  && ParseDate(r.endEffective) == Some(if r.clamped then today else e.value))
            && (r.Ok? && !r.clamped ==>
                  && CalendarRange(startStr, endStr).Ok?
                  && CalendarRange(startStr, endStr).endExclusive == r.endExclusive)
  {
    var (s, e) := (ParseDate(startStr), ParseDate(endStr));
    if s.Some? && e.Some? {
      ClampedParsed(startStr, endStr, today);
      ParseFormat(today);
      ParseFormat(e.value);
    }
  }

  /** The clamped range of two real dates. */
  lemma ClampedParsed(startStr: string, endStr: string, today: Date)
    requires today.Valid() && today.year <= 9999 && ParseDate(startStr).Some? && ParseDate(endStr).Some?
    ensures var (s, e) := (ParseDate(startStr).value, ParseDate(endStr).value);
            var clamped := DayNumber(today) < DayNumber(e);
            var end := if clamped then today else e;
            && end.year <= 9999
            && CalendarRangeClamped(startStr, endStr, today)
               == (if DayNumber(s) <= DayNumber(end) then Ok(Midnight(s), Midnight(end) + DAY, FormatDate(end), clamped)
                   else Failed(clamped))
            && (!clamped && DayNumber(s) <= DayNumber(e) ==>
                  CalendarRange(startStr, endStr) == Ok(Midnight(s), Midnight(end) + DAY, endStr, false))
  {
  }

  /** The day before, for any date after year 0. */
  function Yesterday(today: Date): (d: Date)
    requires today.Valid() && 0 < today.year
    ensures d.Valid() && d.year <= today.year && DayNumber(d) + 1 == DayNumber(today)
  {
    WithinYear(today);
    YearsMonotone(0, today.year);
    assert DaysBeforeYear(1) == 366;
    var d := FromDayNumber(DayNumber(today) - 1);
    DayNumberOrders(d, today);
    d
  }

  /** 2 January, `years` years before `today`. */
  function BootstrapStart(today: Date, years: int): (d: Date)
    requires today.Valid() && 1 <= years <= today.year
    ensures d.Valid() && d.year < today.year && DayNumber(d) < DayNumber(today)
  {
    var d := Date(today.year - years, 1, 2);
    assert d.Valid();
    DayNumberOrders(d, today);
    d
  }

  /** `CompanyBootstrapSATRangeUTC`, from 2 January `years` years ago through yesterday. */
  function BootstrapRange(today: Date, years: int): RangeResult
    requires today.Valid() && 0 < today.year <= 9999 && years <= today.year
  {
    if years < 1 then Failed(false)
    else CalendarRangeClamped(FormatDate(BootstrapStart(today, years)), FormatDate(Yesterday(today)), today)
  }

  /** The bootstrap range never fails or clamps, and its exclusive end is today in Mexico. */
  lemma BootstrapRangeValid(today: Date, years: int)
    requires today.Valid() && 1 <= years <= today.year <= 9999
    ensures BootstrapRange(today, years)
              == Ok(Midnight(Date(today.year - years, 1, 2)), Midnight(today), FormatDate(Yesterday(today)), false)
    ensures DayNumber(Date(today.year - years, 1, 2)) < DayNumber(today)
  {
    assert BootstrapStart(today, years) == Date(today.year - years, 1, 2);
    RangeThroughYesterday(BootstrapStart(today, years), Yesterday(today), today);
  }

  lemma RangeThroughYesterday(start: Date, end: Date, today: Date)
    requires start.Valid() && end.Valid() && today.Valid() && start.year <= 9999 && end.year <= 9999 && today.year <= 9999
    requires DayNumber(start) <= DayNumber(end) && DayNumber(end) + 1 == DayNumber(today)
    ensures CalendarRangeClamped(FormatDate(start), FormatDate(end), today)
              == Ok(Midnight(start), Midnight(today), FormatDate(end), false)
  {
    UnclampedRange(start, end, today);
    assert Midnight(end) + DAY == Midnight(today);
  }

  lemma UnclampedRange(s: Date, e: Date, today: Date)
    requires s.Valid() && e.Valid() && today.Valid() && s.year <= 9999 && e.year <= 9999 && today.year <= 9999
    requires DayNumber(s) <= DayNumber(e) <= DayNumber(today)
    ensures CalendarRangeClamped(FormatDate(s), FormatDate(e), today)
              == Ok(Midnight(s), Midnight(e) + DAY, FormatDate(e), false)
  {
    ParseFormat(s);
    ParseFormat(e);
  }

  /** The date SAT is given for an instant: its UTC calendar date at midnight. */
  function SoapFechaCentro(t: int): string
    requires t >= 0 && DateOf(t).year <= 9999
  {
    FormatDate(DateOf(t)) + "T00:00:00"
  }

  /** The date printed for the end of the bootstrap range, taken at any moment, is today's date
      on the Mexican clock. */
  lemma BootstrapEndPrintsToday(now: int, offset: int, years: int)
    requires now + offset >= 0
    requires 1 <= years <= MXCalendarDate(now, offset).year <= 9999
    ensures var r := BootstrapRange(MXCalendarDate(now, offset), years);
            && r.Ok? && r.endExclusive >= 0 && DateOf(r.endExclusive).year <= 9999
            && ParseDate(SoapFechaCentro(r.endExclusive)[..10]) == Some(MXCalendarDate(now, offset))
            && SoapFechaCentro(r.endExclusive)[10..] == "T00:00:00"
            && r.endExclusive <= now + offset < r.endExclusive + DAY
  {
    var today := MXCalendarDate(now, offset);
    BootstrapRangeValid(today, years);
    DateOfMidnight(today);
    ParseFormat(today);
    assert SoapFechaCentro(Midnight(today))[..10] == FormatDate(today);
    assert SoapFechaCentro(Midnight(today))[10..] == "T00:00:00";
  }
}
