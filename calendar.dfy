/** The calendar page: month lengths, the weekday of a month's first day, the grid of
    leading blanks and day numbers, `MM/DD/YYYY` formatting, the weekday name of a
    date, and the year and day options. JavaScript's `Date` (proleptic Gregorian,
    ECMA-262 section 21.4) is replaced by integer arithmetic on day numbers. */
module Calendar {
  import opened Wrappers
  import opened JsText

  // ---------------------------------------------------------------------------
  // Gregorian day numbers
  // ---------------------------------------------------------------------------

  /** `new Date(y, …)` reads a year 0..99 as 1900..1999. */
  function JsYear(year: int): (y: int)
    ensures 0 <= year <= 99 ==> y == 1900 + year
    ensures !(0 <= year <= 99) ==> y == year
  {
    if 0 <= year <= 99 then 1900 + year else year
  }

  /** The Gregorian leap-year rule. */
  predicate IsLeap(y: int) {
    (y % 4 == 0 && y % 100 != 0) || y % 400 == 0
  }

  /** The length of month `m` (1..12) of year `y`. */
  function MonthLength(y: int, m: int): (n: int)
    requires 1 <= m <= 12
    ensures 28 <= n <= 31
  {
    if m == 2 then (if IsLeap(y) then 29 else 28)
    else if m == 4 || m == 6 || m == 9 || m == 11 then 30
    else 31
  }

  /** Days in the months of `y` before month `m` (1..12). */
  function DaysBeforeMonth(y: int, m: int): int
    requires 1 <= m <= 12
  {
    [0, 31, 59, 90, 120, 151, 181, 212, 243, 273, 304, 334][m - 1] + (if m > 2 && IsLeap(y) then 1 else 0)
  }

  /** Each month starts where the one before it ends. */
  lemma MonthStep(y: int, m: int)
    requires 1 <= m < 12
    ensures DaysBeforeMonth(y, m + 1) == DaysBeforeMonth(y, m) + MonthLength(y, m)
  {
  }

  /** The number of leap years before `y`, counted from a fixed origin; only
      differences of it matter. */
  function LeapsBefore(y: int): int {
    (y - 1) / 4 - (y - 1) / 100 + (y - 1) / 400
  }

  lemma LeapsStep(y: int)
    ensures LeapsBefore(y + 1) == LeapsBefore(y) + (if IsLeap(y) then 1 else 0)
  {
    assert y / 4 == (y - 1) / 4 + (if y % 4 == 0 then 1 else 0);
    assert y / 100 == (y - 1) / 100 + (if y % 100 == 0 then 1 else 0);
    assert y / 400 == (y - 1) / 400 + (if y % 400 == 0 then 1 else 0);
    assert y % 400 == 0 ==> y % 100 == 0 && y % 4 == 0;
    assert y % 100 == 0 ==> y % 4 == 0;
  }

  /** Days from 1 January 1970 to 1 January of `y`. */
  function DaysBeforeYear(y: int): int {
    365 * (y - 1970) + LeapsBefore(y) - LeapsBefore(1970)
  }

  /** A year has 365 days, 366 when it is a leap year. */
  lemma YearLength(y: int)
    ensures DaysBeforeYear(y + 1) == DaysBeforeYear(y) + (if IsLeap(y) then 366 else 365)
  {
    LeapsStep(y);
  }

  /** ECMA-262 `MakeDay` for a year already read by `JsYear`: the day number
      (days since 1 January 1970) of day `date` of month index `monthIndex`, where a
      month index outside 0..11 moves into the neighbouring years and a date outside
      the month moves into the neighbouring months. */
  function MakeDay(year: int, monthIndex: int, date: int): int {
    var y := year + monthIndex / 12;
    var m := monthIndex % 12 + 1;
    DaysBeforeYear(y) + DaysBeforeMonth(y, m) + date - 1
  }

  /** The weekday of a day number, Sunday = 0; 1 January 1970 was a Thursday. */
  function Weekday(dayNumber: int): (w: int)
    ensures 0 <= w <= 6
  {
    (dayNumber + 4) % 7
  }

  /** Moving `k` days on moves the weekday `k` places on. */
  lemma WeekdayShift(dayNumber: int, k: int)
    ensures Weekday(dayNumber + k) == (Weekday(dayNumber) + k) % 7
  {
    var a := dayNumber + 4;
    assert a == 7 * (a / 7) + a % 7;
    assert a + k == 7 * (a / 7) + (a % 7 + k);
  }

  // ---------------------------------------------------------------------------
  // The page's date functions
  // ---------------------------------------------------------------------------

  /** `getDaysInMonth(year, month)`: the date of day 0 of month index `month`,
      which is the last day of month `month` (1-based, normalised into 1..12). */
  function DaysInMonth(year: int, month: int): (n: int)
    ensures 28 <= n <= 31
  {
    var y := JsYear(year) + (month - 1) / 12;
    MonthLength(y, (month - 1) % 12 + 1)
  }

  /** Day 0 of a month is the last day of the month before: its day number is that
      of day `DaysInMonth` of the previous month, so its date is `DaysInMonth`. */
  lemma DayZeroIsLastDay(year: int, month: int)
    ensures MakeDay(JsYear(year), month, 0) == MakeDay(JsYear(year), month - 1, DaysInMonth(year, month))
  {
    var y := JsYear(year);
    var prev := (month - 1) % 12 + 1;
    if prev == 12 {
      assert month / 12 == (month - 1) / 12 + 1 && month % 12 == 0;
      YearLength(y + (month - 1) / 12);
    } else {
      assert month / 12 == (month - 1) / 12 && month % 12 + 1 == prev + 1;
      MonthStep(y + (month - 1) / 12, prev);
    }
  }

  /** For the months the page offers: 31 days for January, March, May, July,
      August, October and December, 30 for April, June, September and November,
      and 29 or 28 for February by the leap rule. */
  lemma DaysInMonthTable(year: int, month: int)
    requires 1 <= month <= 12
    ensures month in {1, 3, 5, 7, 8, 10, 12} ==> DaysInMonth(year, month) == 31
    ensures month in {4, 6, 9, 11} ==> DaysInMonth(year, month) == 30
    ensures month == 2 ==> DaysInMonth(year, month) == (if IsLeap(JsYear(year)) then 29 else 28)
  {
    assert (month - 1) / 12 == 0 && (month - 1) % 12 + 1 == month;
  }

  /** `getFirstDayOfMonth(year, month)`: the weekday of the 1st, Sunday = 0. */
  function FirstDayOfMonth(year: int, month: int): (w: int)
    ensures 0 <= w <= 6
  {
    Weekday(MakeDay(JsYear(year), month - 1, 1))
  }

  /** The next month starts `DaysInMonth` days later, so its first weekday moves on
      by the month's length, through December into January of the next year. */
  lemma FirstDayRecurrence(year: int, month: int)
    ensures FirstDayOfMonth(year, month + 1) == (FirstDayOfMonth(year, month) + DaysInMonth(year, month)) % 7
  {
    DayZeroIsLastDay(year, month);
    var y := JsYear(year);
    var first := MakeDay(y, month - 1, 1);
    assert MakeDay(y, month, 1) == MakeDay(y, month, 0) + 1;
    assert MakeDay(y, month - 1, DaysInMonth(year, month)) == first + DaysInMonth(year, month) - 1;
    WeekdayShift(first, DaysInMonth(year, month));
  }

  /** January starts on the first day of the year. */
  lemma JanuaryFirst(year: int)
    ensures FirstDayOfMonth(year, 1) == Weekday(DaysBeforeYear(JsYear(year)))
  {
    assert 0 / 12 == 0 && 0 % 12 == 0;
  }

  /** 1 January 1970, day number 0, was a Thursday. */
  lemma EpochThursday()
    ensures FirstDayOfMonth(1970, 1) == 4
  {
    JanuaryFirst(1970);
    var d := DaysBeforeYear(1970);
    assert d == 0;
  }

  /** 1 January 2000 was a Saturday. */
  lemma Year2000Saturday()
    ensures FirstDayOfMonth(2000, 1) == 6
  {
    JanuaryFirst(2000);
    assert 1999 / 4 == 499 && 1999 / 100 == 19 && 1999 / 400 == 4;
    assert 1969 / 4 == 492 && 1969 / 100 == 19 && 1969 / 400 == 4;
    var d := DaysBeforeYear(2000);
    assert d == 10957;
  }

  /** February 2024 had 29 days. */
  lemma Leap2024()
    ensures DaysInMonth(2024, 2) == 29
  {
    assert IsLeap(2024);
  }

  const DayNames: seq<string> := ["星期日", "星期一", "星期二", "星期三", "星期四", "星期五", "星期六"]

  /** `getDayOfWeek(year, month, day)`: the weekday name of the date. */
  function DayOfWeek(year: int, month: int, day: int): (name: string)
    ensures name in DayNames
  {
    DayNames[Weekday(MakeDay(JsYear(year), month - 1, day))]
  }

  /** A date's weekday is the month's first weekday moved on by `day - 1`, for any
      day (out-of-range days roll into the neighbouring months), so day 1 names the
      weekday `getFirstDayOfMonth` gives. */
  lemma DayOfWeekFromFirst(year: int, month: int, day: int)
    ensures DayOfWeek(year, month, day) == DayNames[(FirstDayOfMonth(year, month) + day - 1) % 7]
    ensures DayOfWeek(year, month, 1) == DayNames[FirstDayOfMonth(year, month)]
  {
    var y := JsYear(year);
    var first := MakeDay(y, month - 1, 1);
    assert MakeDay(y, month - 1, day) == first + (day - 1);
    WeekdayShift(first, day - 1);
  }

  // ---------------------------------------------------------------------------
  // Formatting
  // ---------------------------------------------------------------------------

  /** `s.padStart(2, '0')`: zeros in front up to length 2; longer text unchanged. */
  function PadStart2(s: string): (r: string)
    ensures |s| >= 2 ==> r == s
    ensures |s| < 2 ==> |r| == 2 && r[2 - |s|..] == s && forall k | 0 <= k < 2 - |s| :: r[k] == '0'
  {
    if |s| >= 2 then s else if |s| == 1 then "0" + s else "00"
  }

  /** `formatDate(year, month, day)`: `MM/DD/YYYY`, with `String(n)` for each
      part and the month and day padded to two digits. The `Date` the source builds
      there is never used. */
  function FormatDate(year: int, month: int, day: int): string {
    PadStart2(IntToDecimal(month)) + "/" + PadStart2(IntToDecimal(day)) + "/" + IntToDecimal(year)
  }

  lemma PadTwoDigits(n: int)
    requires 1 <= n <= 99
    ensures |PadStart2(IntToDecimal(n))| == 2
    ensures ParseInt(PadStart2(IntToDecimal(n))) == Some(n)
  {
    if n < 10 {
      assert IntToDecimal(n) == NatToDecimal(n);
      assert PadStart2(IntToDecimal(n)) == "0" + NatToDecimal(n);
      ParseIntLeadingZero(n);
    } else {
      assert NatToDecimal(n) == NatToDecimal(n / 10) + [DigitChar(n % 10)];
      ParseIntDecimal(n);
    }
  }

  /** For a real month, a day of up to 99 and a four-digit year the text is ten
      characters long with `/` at indices 2 and 5, and each part reads back as the
      number it came from. */
  lemma FormatDateShape(year: int, month: int, day: int)
    requires 1000 <= year <= 9999 && 1 <= month <= 12 && 1 <= day <= 99
    ensures var s := FormatDate(year, month, day);
      && |s| == 10 && s[2] == '/' && s[5] == '/'
      && ParseInt(s[..2]) == Some(month)
      && ParseInt(s[3..5]) == Some(day)
      && ParseInt(s[6..]) == Some(year)
  {
    var mm := PadStart2(IntToDecimal(month));
    var dd := PadStart2(IntToDecimal(day));
    var yyyy := IntToDecimal(year);
    PadTwoDigits(month);
    PadTwoDigits(day);
    FourDigits(year);
    ParseIntDecimal(year);
    SlashJoin(mm, dd, yyyy);
  }

  /** Two, two and four characters joined by `/`: the slashes sit at indices 2
      and 5 and each part can be cut back out. */
  lemma SlashJoin(mm: string, dd: string, yyyy: string)
    requires |mm| == 2 && |dd| == 2 && |yyyy| == 4
    ensures var s := mm + "/" + dd + "/" + yyyy;
      && |s| == 10 && s[2] == '/' && s[5] == '/'
      && s[..2] == mm && s[3..5] == dd && s[6..] == yyyy
  {
    var s := mm + "/" + dd + "/" + yyyy;
    assert s[..2] == mm;
    assert s[3..5] == dd;
    assert s[6..] == yyyy;
  }

  lemma FourDigits(year: int)
    requires 1000 <= year <= 9999
    ensures |IntToDecimal(year)| == 4
  {
    assert NatToDecimal(year) == NatToDecimal(year / 10) + [DigitChar(year % 10)];
    assert NatToDecimal(year / 10) == NatToDecimal(year / 100) + [DigitChar(year / 10 % 10)];
    assert NatToDecimal(year / 100) == NatToDecimal(year / 1000) + [DigitChar(year / 100 % 10)];
  }

  // ---------------------------------------------------------------------------
  // Options and the grid
  // ---------------------------------------------------------------------------

  /** `years`: the hundred years from fifty before the current year. */
  function YearOptions(currentYear: int): (years: seq<int>)
    ensures |years| == 100
    ensures years[0] == currentYear - 50 && years[99] == currentYear + 49
    ensures forall i | 0 <= i < 99 :: years[i + 1] == years[i] + 1
    ensures forall y :: y in years <==> currentYear - 50 <= y <= currentYear + 49
  {
    var years := seq(100, i => currentYear - 50 + i);
    forall y ensures y in years <==> currentYear - 50 <= y <= currentYear + 49 {
      if currentYear - 50 <= y <= currentYear + 49 {
        assert years[y - currentYear + 50] == y;
      }
    }
    years
  }

  /** The day selector's options: 1 up to the month's length. */
  function DayOptions(year: int, month: int): (days: seq<int>)
    ensures |days| == DaysInMonth(year, month)
    ensures forall i | 0 <= i < |days| :: days[i] == i + 1
    ensures forall d :: d in days <==> 1 <= d <= DaysInMonth(year, month)
  {
    var days := seq(DaysInMonth(year, month), i => i + 1);
    forall d ensures d in days <==> 1 <= d <= DaysInMonth(year, month) {
      if 1 <= d <= DaysInMonth(year, month) {
        assert days[d - 1] == d;
      }
    }
    days
  }

  /** `firstDay` blanks followed by the days 1..`daysInMonth` in order. */
  ghost predicate IsGrid(cells: seq<Option<int>>, firstDay: int, daysInMonth: int) {
    && 0 <= firstDay && 0 <= daysInMonth
    && |cells| == firstDay + daysInMonth
    && (forall k | 0 <= k < firstDay :: cells[k] == None)
    && (forall k | firstDay <= k < |cells| :: cells[k] == Some(k - firstDay + 1))
  }

  /** The number of cells that hold a day. */
  function CountDays(cells: seq<Option<int>>): (n: nat)
    ensures n <= |cells|
  {
    if cells == [] then 0 else (if cells[0].Some? then 1 else 0) + CountDays(cells[1..])
  }

  /** Blanks first, then days: the days are the cells after the blanks. */
  lemma {:induction false} CountAfterBlanks(cells: seq<Option<int>>, blanks: int)
    requires 0 <= blanks <= |cells|
    requires forall k | 0 <= k < blanks :: cells[k].None?
    requires forall k | blanks <= k < |cells| :: cells[k].Some?
    ensures CountDays(cells) == |cells| - blanks
  {
    if cells != [] {
      var rest := cells[1..];
      if blanks > 0 {
        CountAfterBlanks(rest, blanks - 1);
      } else {
        CountAfterBlanks(rest, 0);
      }
    }
  }

  /** `generateCalendarGrid()` for the selected year and month: the leading blanks,
      at most six, then every day of the month once, in order. */
  method GenerateCalendarGrid(year: int, month: int) returns (days: seq<Option<int>>)
    ensures IsGrid(days, FirstDayOfMonth(year, month), DaysInMonth(year, month))
    ensures CountDays(days) == DaysInMonth(year, month)
    ensures |days| <= 6 + DaysInMonth(year, month)
  {
    var daysInMonth := DaysInMonth(year, month);
    var firstDay := FirstDayOfMonth(year, month);
    days := [];
    for i := 0 to firstDay
      invariant |days| == i
      invariant forall k | 0 <= k < i :: days[k] == None
    {
      days := days + [None];
    }
    for day := 1 to daysInMonth + 1
      invariant |days| == firstDay + day - 1
      invariant forall k | 0 <= k < firstDay :: days[k] == None
      invariant forall k | firstDay <= k < |days| :: days[k] == Some(k - firstDay + 1)
    {
      days := days + [Some(day)];
    }
    CountAfterBlanks(days, firstDay);
  }
}
