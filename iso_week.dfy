/**
 * ISO 8601 week numbering as getCurrentWeekKey computes it
 * (static/js/tracker.js:13-21), over exact integer day counts.
 *
 * Dates are proleptic Gregorian calendar dates, as ECMAScript's Date uses.
 * A date is a day number: day 0 is 0001-01-01, which is a Monday. Months
 * run 1..12 here, where the script passes 0..11 to Date.UTC.
 */
module IsoWeek {
  import opened Wrappers

  predicate IsLeapYear(y: int) {
    y % 4 == 0 && (y % 100 != 0 || y % 400 == 0)
  }

  function DaysInYear(y: int): int {
    if IsLeapYear(y) then 366 else 365
  }

  function DaysInMonth(y: int, m: int): int
    requires 1 <= m <= 12
  {
    if m == 2 then (if IsLeapYear(y) then 29 else 28)
    else if m == 4 || m == 6 || m == 9 || m == 11 then 30
    else 31
  }

  predicate ValidDate(y: int, m: int, d: int) {
    1 <= m <= 12 && 1 <= d <= DaysInMonth(y, m)
  }

  /** Days of year y that come before month m. */
  function DaysBeforeMonth(y: int, m: int): int
    requires 1 <= m <= 12
  {
    var common := [0, 31, 59, 90, 120, 151, 181, 212, 243, 273, 304, 334][m - 1];
    if m > 2 && IsLeapYear(y) then common + 1 else common
  }

  /** Zero-based ordinal of a date within its year. */
  function DayOfYear(y: int, m: int, d: int): (k: int)
    requires ValidDate(y, m, d)
    ensures 0 <= k < DaysInYear(y)
  {
    DaysBeforeMonth(y, m) + d - 1
  }

  /** Day number of January 1 of year y. */
  function DaysBeforeYear(y: int): int {
    365 * (y - 1) + (y - 1) / 4 - (y - 1) / 100 + (y - 1) / 400
  }

  /** Stepping from y - 1 to y adds one to y / k exactly when k divides y. */
  lemma QuotientSteps(y: int)
    ensures y / 4 - (y - 1) / 4 == if y % 4 == 0 then 1 else 0
    ensures y / 100 - (y - 1) / 100 == if y % 100 == 0 then 1 else 0
    ensures y / 400 - (y - 1) / 400 == if y % 400 == 0 then 1 else 0
  {
  }

  lemma YearLength(y: int)
    ensures DaysBeforeYear(y + 1) == DaysBeforeYear(y) + DaysInYear(y)
  {
    QuotientSteps(y);
  }

  /** Later years start on later days: the year holding a day is unique. */
  lemma {:induction false} YearStartsIncrease(a: int, b: int)
    requires a <= b
    ensures DaysBeforeYear(b) - DaysBeforeYear(a) >= 365 * (b - a)
    decreases b - a
  {
    if a < b {
      YearStartsIncrease(a, b - 1);
      YearLength(b - 1);
    }
  }

  /** The calendar year holding day n. */
  ghost predicate YearHolds(y: int, n: int) {
    DaysBeforeYear(y) <= n < DaysBeforeYear(y + 1)
  }

  lemma YearHoldsUnique(y1: int, y2: int, n: int)
    requires YearHolds(y1, n) && YearHolds(y2, n)
    ensures y1 == y2
  {
    if y1 < y2 {
      YearStartsIncrease(y1 + 1, y2);
    } else if y2 < y1 {
      YearStartsIncrease(y2 + 1, y1);
    }
  }

  /** The day number of a date. Dates past the end of a month roll over
      into the next, as Date.UTC normalises them. */
  function DayNumber(y: int, m: int, d: int): int
    requires 1 <= m <= 12
  {
    DaysBeforeYear(y) + DaysBeforeMonth(y, m) + d - 1
  }

  /** getUTCDay(): 0 is Sunday, 1 Monday, ..., 6 Saturday. */
  function UtcDay(n: int): int {
    (n + 1) % 7
  }

  /** `getUTCDay() || 7`: the ISO weekday, Monday 1 .. Sunday 7. */
  function IsoWeekday(n: int): (k: int)
    ensures 1 <= k <= 7
    ensures k - 1 == n % 7
  {
    var u := UtcDay(n);
    if u == 0 then 7 else u
  }

  /** The Monday that starts the week of day n. */
  function MondayOf(n: int): int {
    n - (IsoWeekday(n) - 1)
  }

  /** The Thursday of the week of day n (`setUTCDate(getUTCDate() + 4 - dayNum)`). */
  function ThursdayOf(n: int): (t: int)
    ensures t == MondayOf(n) + 3
    ensures t % 7 == 3
  {
    n + 4 - IsoWeekday(n)
  }

  /** The calendar year of the day `delta` days after day `doy` of year y,
      for a shift of at most three days: what getUTCFullYear reads after
      setUTCDate has moved the date across a year end. */
  function ShiftedYear(y: int, doy: int, delta: int): (r: int)
    requires 0 <= doy < DaysInYear(y) && -3 <= delta <= 3
    ensures y - 1 <= r <= y + 1
  {
    if doy + delta < 0 then y - 1
    else if doy + delta >= DaysInYear(y) then y + 1
    else y
  }

  /** The shifted day does lie in the year ShiftedYear names. */
  lemma ShiftedYearHolds(y: int, doy: int, delta: int)
    requires 0 <= doy < DaysInYear(y) && -3 <= delta <= 3
    ensures YearHolds(ShiftedYear(y, doy, delta), DaysBeforeYear(y) + doy + delta)
  {
    if doy + delta < 0 {
      YearLength(y - 1);
    } else if doy + delta >= DaysInYear(y) {
      YearLength(y);
      YearLength(y + 1);
    } else {
      YearLength(y);
    }
  }

  /** `Math.ceil(a / 7)` for an exact integer quotient. */
  function CeilDiv7(a: int): (q: int)
    ensures 7 * (q - 1) < a <= 7 * q
  {
    -((-a) / 7)
  }

  /** An ISO week: the week-numbering year and the week within it. */
  datatype WeekNumber = WeekNumber(year: int, week: int)

  /** The day number of the first Thursday of year y; ISO week 1 is the week that holds it. */
  function FirstThursday(y: int): (t: int)
    ensures DaysBeforeYear(y) <= t < DaysBeforeYear(y) + 7
    ensures t % 7 == 3
  {
    ThursdayFrom(DaysBeforeYear(y))
  }

  /** The first Thursday on or after day b. */
  function ThursdayFrom(b: int): (t: int)
    ensures b <= t < b + 7
    ensures t % 7 == 3
  {
    b + (3 - b) % 7
  }

  /** Reference definition: the day of weekday wd (1 = Monday) of ISO week `week` of year `year`. */
  function DayOfIsoWeekDate(year: int, week: int, wd: int): int {
    FirstThursday(year) - 3 + 7 * (week - 1) + (wd - 1)
  }

  lemma ThursdayOfYear(b: int, t: int, len: int)
    requires b <= t < b + len <= b + 366 && t % 7 == 3
    ensures 1 <= CeilDiv7(t - b + 1) <= 53
    ensures t == ThursdayFrom(b) + 7 * (CeilDiv7(t - b + 1) - 1)
  {
    var a := t - b;
    assert CeilDiv7(a + 1) == a / 7 + 1;
    assert a % 7 == (3 - b) % 7;
  }

  /** A Thursday t of year y is week CeilDiv7(t - Jan 1 + 1) of that year. */
  lemma ThursdayWeek(y: int, t: int)
    requires YearHolds(y, t) && t % 7 == 3
    ensures 1 <= CeilDiv7(t - DaysBeforeYear(y) + 1) <= 53
    ensures t == FirstThursday(y) + 7 * (CeilDiv7(t - DaysBeforeYear(y) + 1) - 1)
  {
    YearLength(y);
    ThursdayOfYear(DaysBeforeYear(y), t, DaysInYear(y));
  }

  /** Month m and day d fall inside year fy, counting from January 1. */
  predicate InYear(fy: int, m: int, d: int) {
    1 <= m <= 12 && 0 <= DaysBeforeMonth(fy, m) + d - 1 < DaysInYear(fy)
  }

  /** `d.getUTCFullYear()` once d has moved to the Thursday of its week (lines 16-18). */
  function ThursdayYear(fy: int, m: int, d: int): (r: int)
    requires InYear(fy, m, d)
    ensures fy - 1 <= r <= fy + 1
  {
    ShiftedYear(fy, DaysBeforeMonth(fy, m) + d - 1, 4 - IsoWeekday(DayNumber(fy, m, d)))
  }

  /** The Thursday of the week lies in the year ThursdayYear names. */
  lemma ThursdayYearHolds(fy: int, m: int, d: int)
    requires InYear(fy, m, d)
    ensures YearHolds(ThursdayYear(fy, m, d), ThursdayOf(DayNumber(fy, m, d)))
  {
    ShiftedYearHolds(fy, DaysBeforeMonth(fy, m) + d - 1, 4 - IsoWeekday(DayNumber(fy, m, d)));
  }

  /** `Math.ceil(((d - yearStart) / 86400000 + 1) / 7)` with d at the Thursday (line 19). */
  function WeekCount(fy: int, m: int, d: int, yearStart: int): int
    requires 1 <= m <= 12
  {
    CeilDiv7(ThursdayOf(DayNumber(fy, m, d)) - yearStart + 1)
  }

  /**
   * The ISO week of a date: the year is that of the Thursday of the date's
   * Monday-start week, and the week number counts Thursdays of that year up
   * to and including it.
   *
   * The script computes the year start with Date.UTC, which reads a year
   * from 0 to 99 as 1900 + year; this function uses the year itself (see
   * SourceWeekOf for the script as written).
   */
  function IsoWeekOf(y: int, m: int, d: int): (r: WeekNumber)
    requires ValidDate(y, m, d)
    ensures y - 1 <= r.year <= y + 1
    ensures 1 <= r.week <= 53
  {
    IsoWeekOfThursday(y, m, d);
    WeekNumber(ThursdayYear(y, m, d), WeekCount(y, m, d, DayNumber(ThursdayYear(y, m, d), 1, 1)))
  }

  /** The week's Thursday lies in the ISO year, and is the week-th Thursday of that year. */
  lemma IsoWeekOfThursday(y: int, m: int, d: int)
    requires ValidDate(y, m, d)
    ensures var isoYear := ThursdayYear(y, m, d);
      var r := WeekNumber(isoYear, WeekCount(y, m, d, DayNumber(isoYear, 1, 1)));
      && YearHolds(r.year, ThursdayOf(DayNumber(y, m, d)))
      && 1 <= r.week <= 53
      && ThursdayOf(DayNumber(y, m, d)) == FirstThursday(r.year) + 7 * (r.week - 1)
  {
    assert DayOfYear(y, m, d) == DaysBeforeMonth(y, m) + d - 1;
    var isoYear := ThursdayYear(y, m, d);
    ThursdayYearHolds(y, m, d);
    ThursdayWeek(isoYear, ThursdayOf(DayNumber(y, m, d)));
    assert DayNumber(isoYear, 1, 1) == DaysBeforeYear(isoYear);
  }

  /** The ISO week date (year, week, weekday) of a date leads back to the same day. */
  lemma IsoWeekDateRoundTrip(y: int, m: int, d: int)
    requires ValidDate(y, m, d)
    ensures var w := IsoWeekOf(y, m, d);
      DayOfIsoWeekDate(w.year, w.week, IsoWeekday(DayNumber(y, m, d))) == DayNumber(y, m, d)
  {
    IsoWeekOfThursday(y, m, d);
  }

  /** Two dates get the same ISO week exactly when they share a Monday-start week. */
  lemma {:induction false} SameIsoWeekIff(y1: int, m1: int, d1: int, y2: int, m2: int, d2: int)
    requires ValidDate(y1, m1, d1) && ValidDate(y2, m2, d2)
    ensures IsoWeekOf(y1, m1, d1) == IsoWeekOf(y2, m2, d2)
        <==> MondayOf(DayNumber(y1, m1, d1)) == MondayOf(DayNumber(y2, m2, d2))
  {
    var n1, n2 := DayNumber(y1, m1, d1), DayNumber(y2, m2, d2);
    var w1, w2 := IsoWeekOf(y1, m1, d1), IsoWeekOf(y2, m2, d2);
    IsoWeekOfThursday(y1, m1, d1);
    IsoWeekOfThursday(y2, m2, d2);
    if MondayOf(n1) == MondayOf(n2) {
      assert ThursdayOf(n1) == ThursdayOf(n2);
      YearHoldsUnique(w1.year, w2.year, ThursdayOf(n1));
    }
    if w1 == w2 {
      IsoWeekDateRoundTrip(y1, m1, d1);
      IsoWeekDateRoundTrip(y2, m2, d2);
    }
  }

  // ---- The key text: `isoYear + '-W' + String(weekNo).padStart(2, '0')`

  function DigitChar(k: int): (c: char)
    requires 0 <= k <= 9
    ensures '0' <= c <= '9' && c as int - '0' as int == k
  {
    (k + '0' as int) as char
  }

  predicate AllDigits(s: string) {
    forall i :: 0 <= i < |s| ==> '0' <= s[i] <= '9'
  }

  /** The decimal digits of n, most significant first, without leading zeros. */
  function NatToString(n: nat): (s: string)
    ensures |s| >= 1 && AllDigits(s)
    ensures n < 10 ==> |s| == 1
    ensures 10 <= n < 100 ==> |s| == 2
    ensures 1000 <= n < 10000 ==> |s| == 4
    ensures n > 0 ==> s[0] != '0'
    ensures |s| == 1 || s[0] != '0'
  {
    if n < 10 then [DigitChar(n)] else NatToString(n / 10) + [DigitChar(n % 10)]
  }

  /** JavaScript's String(n) for an integer n. */
  function IntToString(n: int): string {
    if n < 0 then "-" + NatToString(-n) else NatToString(n)
  }

  /** `s.padStart(2, '0')`. */
  function PadStart2(s: string): (r: string)
    ensures |r| == if |s| < 2 then 2 else |s|
    ensures r[|r| - |s|..] == s
    ensures forall i :: 0 <= i < |r| - |s| ==> r[i] == '0'
    ensures AllDigits(s) ==> AllDigits(r)
  {
    if |s| == 0 then
      var r := "00";
      assert r[0] == '0' && r[1] == '0';
      r
    else if |s| == 1 then
      var r := "0" + s;
      assert r[0] == '0' && r[1..] == s;
      r
    else s
  }

  function WeekKeyOf(w: WeekNumber): string {
    IntToString(w.year) + "-W" + PadStart2(IntToString(w.week))
  }

  /** getCurrentWeekKey, with today's local calendar date as the parameter. */
  function GetCurrentWeekKey(y: int, m: int, d: int): string
    requires ValidDate(y, m, d)
  {
    WeekKeyOf(IsoWeekOf(y, m, d))
  }

  /** Value of a string of decimal digits. */
  function ParseNat(s: string): nat
    requires AllDigits(s)
  {
    if s == [] then 0 else 10 * ParseNat(s[..|s| - 1]) + (s[|s| - 1] as int - '0' as int)
  }

  lemma {:induction false} ParseNatToString(n: nat)
    ensures ParseNat(NatToString(n)) == n
  {
    var s := NatToString(n);
    if n >= 10 {
      ParseNatToString(n / 10);
      assert s[..|s| - 1] == NatToString(n / 10);
    }
  }

  /** Value of an optionally signed decimal integer. */
  function ParseInt(s: string): Option<int> {
    if |s| >= 2 && s[0] == '-' && AllDigits(s[1..]) then Some(-(ParseNat(s[1..]) as int))
    else if |s| >= 1 && AllDigits(s) then Some(ParseNat(s))
    else None
  }

  lemma ParseNegative(n: int)
    requires n < 0
    ensures ParseInt("-" + NatToString(-n)) == Some(n)
  {
    var t := NatToString(-n);
    var s := "-" + t;
    ParseNatToString(-n);
    assert s[0] == '-' && s[1..] == t;
  }

  lemma ParseNonNegative(n: nat)
    ensures ParseInt(NatToString(n)) == Some(n)
  {
    var s := NatToString(n);
    assert '0' <= s[0] <= '9';
    ParseNatToString(n);
  }

  lemma ParseIntToString(n: int)
    ensures ParseInt(IntToString(n)) == Some(n)
  {
    if n < 0 {
      ParseNegative(n);
    } else {
      ParseNonNegative(n);
    }
  }

  /** Reads a key of the form `<year>-W<two digits>` back into the week it names. */
  function ParseWeekKey(s: string): Option<WeekNumber> {
    if |s| < 5 || s[|s| - 4..|s| - 2] != "-W" || !AllDigits(s[|s| - 2..]) then None
    else match ParseInt(s[..|s| - 4])
      case None => None
      case Some(year) => Some(WeekNumber(year, ParseNat(s[|s| - 2..])))
  }

  /** Where the year, the `-W` and the two week digits sit in a key. */
  lemma KeyParts(ys: string, ws: string)
    requires |ws| == 2
    ensures var k := ys + "-W" + ws;
      k[..|k| - 4] == ys && k[|k| - 4..|k| - 2] == "-W" && k[|k| - 2..] == ws
  {
  }

  /** A week number of one or two digits pads to two digits that read back as that number. */
  lemma PaddedWeekValue(n: int)
    requires 1 <= n <= 99
    ensures var ws := PadStart2(IntToString(n)); |ws| == 2 && AllDigits(ws) && ParseNat(ws) == n
  {
    var ws := PadStart2(IntToString(n));
    ParseNatToString(n);
    if n < 10 {
      assert ws == ['0', DigitChar(n)];
      assert ws[..1] == "0" && ParseNat("0") == 0;
    } else {
      assert ws == NatToString(n);
    }
  }

  /** The key of a week with a number of one or two digits determines that week. */
  lemma WeekKeyRoundTrip(w: WeekNumber)
    requires 1 <= w.week <= 99
    ensures ParseWeekKey(WeekKeyOf(w)) == Some(w)
  {
    var ys, ws := IntToString(w.year), PadStart2(IntToString(w.week));
    ParseIntToString(w.year);
    PaddedWeekValue(w.week);
    KeyParts(ys, ws);
  }

  /** Key format: for a four-digit ISO year the key matches `^\d{4}-W\d{2}$`. */
  lemma WeekKeyShape(w: WeekNumber)
    requires 1000 <= w.year <= 9999 && 1 <= w.week <= 99
    ensures var k := WeekKeyOf(w);
      |k| == 8 && k[4] == '-' && k[5] == 'W' &&
      AllDigits(k[..4]) && AllDigits(k[6..])
  {
    var ys, ws := NatToString(w.year), PadStart2(NatToString(w.week));
    assert IntToString(w.year) == ys;
    assert IntToString(w.week) == NatToString(w.week);
    assert |ys| == 4 && |ws| == 2 && AllDigits(ys) && AllDigits(ws);
    KeyLayout(ys, ws);
  }

  lemma KeyLayout(ys: string, ws: string)
    requires |ys| == 4 && |ws| == 2 && AllDigits(ys) && AllDigits(ws)
    ensures var k := ys + "-W" + ws;
      |k| == 8 && k[4] == '-' && k[5] == 'W' &&
      AllDigits(k[..4]) && AllDigits(k[6..])
  {
    var k := ys + "-W" + ws;
    assert k[..4] == ys;
    assert k[6..] == ws;
  }

  /** Two dates get the same key exactly when they share a Monday-start week. */
  lemma SameKeyIffSameWeek(y1: int, m1: int, d1: int, y2: int, m2: int, d2: int)
    requires ValidDate(y1, m1, d1) && ValidDate(y2, m2, d2)
    ensures GetCurrentWeekKey(y1, m1, d1) == GetCurrentWeekKey(y2, m2, d2)
        <==> MondayOf(DayNumber(y1, m1, d1)) == MondayOf(DayNumber(y2, m2, d2))
  {
    WeekKeyRoundTrip(IsoWeekOf(y1, m1, d1));
    WeekKeyRoundTrip(IsoWeekOf(y2, m2, d2));
    SameIsoWeekIff(y1, m1, d1, y2, m2, d2);
  }

  // ---- The script as written: Date.UTC reads years 0..99 as 1900 + year

  /** The year Date.UTC uses for a year argument (MakeFullYear). */
  function DateUtcYear(y: int): int {
    if 0 <= y <= 99 then 1900 + y else y
  }

  /** getCurrentWeekKey's arithmetic exactly as written: both Date.UTC calls
      (the date itself, and January 1 of the Thursday's year) map a year
      from 0 to 99 to 1900 + year. */
  function SourceWeekOf(y: int, m: int, d: int): WeekNumber
    requires ValidDate(y, m, d)
  {
    var fy := DateUtcYear(y);
    assert InYear(fy, m, d);
    var thursdayYear := ThursdayYear(fy, m, d);
    WeekNumber(thursdayYear, WeekCount(fy, m, d, DayNumber(DateUtcYear(thursdayYear), 1, 1)))
  }

  function SourceWeekKey(y: int, m: int, d: int): string
    requires ValidDate(y, m, d)
  {
    WeekKeyOf(SourceWeekOf(y, m, d))
  }

  /** Outside years -1..100 the script computes the ISO week. */
  lemma SourceAgreesOutsideTwoDigitYears(y: int, m: int, d: int)
    requires ValidDate(y, m, d)
    requires y <= -2 || y >= 101
    ensures SourceWeekOf(y, m, d) == IsoWeekOf(y, m, d)
    ensures SourceWeekKey(y, m, d) == GetCurrentWeekKey(y, m, d)
  {
    assert DateUtcYear(y) == y;
    assert DateUtcYear(ThursdayYear(y, m, d)) == ThursdayYear(y, m, d);
  }

  /** A year from 0 to 99 is read as 1900 + year: the script gives the date
      the ISO week of the same month and day in 1900 + year, for every
      month and day that exist in both years. */
  lemma SourceReadsTwoDigitYears(y: int, m: int, d: int)
    requires 0 <= y <= 99 && ValidDate(y, m, d) && ValidDate(1900 + y, m, d)
    ensures SourceWeekOf(y, m, d) == IsoWeekOf(1900 + y, m, d)
  {
    assert DateUtcYear(y) == 1900 + y;
    assert DateUtcYear(ThursdayYear(1900 + y, m, d)) == ThursdayYear(1900 + y, m, d);
  }

  // ---- Worked dates
  //
  // Each date is first worked out on parameters fixed by the precondition
  // (which keeps the solver from unfolding the whole calendar on literals),
  // then restated on the literal date.

  /** A date's ISO week, from the year of its Thursday and the count of Thursdays up to it. */
  lemma IsoWeekOfBy(y: int, m: int, d: int, year: int, week: int)
    requires ValidDate(y, m, d)
    requires ThursdayYear(y, m, d) == year && WeekCount(y, m, d, DaysBeforeYear(year)) == week
    ensures IsoWeekOf(y, m, d) == WeekNumber(year, week)
  {
    assert DayNumber(year, 1, 1) == DaysBeforeYear(year);
  }

  /** 0100-01-01 is a Friday (day 36159); its Thursday, day 36158, lies in year 99. */
  lemma ThursdayOf0100Jan1(y: int, m: int, d: int)
    requires y == 100 && m == 1 && d == 1
    ensures ValidDate(y, m, d) && ThursdayYear(y, m, d) == 99
  {
    assert DaysBeforeYear(100) == 36159 && DayNumber(100, 1, 1) == 36159;
    assert IsoWeekday(36159) == 5;
    assert DaysBeforeMonth(100, 1) == 0;
  }

  lemma ComputeWeekOf0100Jan1(y: int, m: int, d: int)
    requires y == 100 && m == 1 && d == 1
    ensures IsoWeekOf(y, m, d) == WeekNumber(99, 53)
  {
    ThursdayOf0100Jan1(y, m, d);
    assert WeekCount(y, m, d, DaysBeforeYear(99)) == 53 by {
      assert DaysBeforeYear(100) == 36159 && DayNumber(100, 1, 1) == 36159;
      assert IsoWeekday(36159) == 5;
      assert DaysBeforeYear(99) == 35794;
    }
    IsoWeekOfBy(y, m, d, 99, 53);
  }

  /** As written, January 1 of year 99 is taken from 1999 (day 729754). */
  lemma ComputeSourceWeekOf0100Jan1(y: int, m: int, d: int)
    requires y == 100 && m == 1 && d == 1
    ensures SourceWeekOf(y, m, d) == WeekNumber(99, -99085)
  {
    ThursdayOf0100Jan1(y, m, d);
    assert DateUtcYear(y) == 100 && DateUtcYear(99) == 1999;
    assert WeekCount(y, m, d, DayNumber(1999, 1, 1)) == -99085 by {
      assert DaysBeforeYear(100) == 36159 && DayNumber(100, 1, 1) == 36159;
      assert IsoWeekday(36159) == 5;
      assert DayNumber(1999, 1, 1) == 729754;
    }
  }

  // The key texts of the worked weeks.

  lemma KeyText99W53()
    ensures WeekKeyOf(WeekNumber(99, 53)) == "99-W53"
  {
  }

  lemma KeyText99WMinus99085()
    ensures WeekKeyOf(WeekNumber(99, -99085)) == "99-W-99085"
  {
  }

  lemma KeyText2026W42()
    ensures WeekKeyOf(WeekNumber(2026, 42)) == "2026-W42"
  {
  }

  lemma KeyText2020W53()
    ensures WeekKeyOf(WeekNumber(2020, 53)) == "2020-W53"
  {
  }

  lemma KeyText2025W01()
    ensures WeekKeyOf(WeekNumber(2025, 1)) == "2025-W01"
  {
  }

  /** The witness for the two-digit-year reading: the script keys 0100-01-01
      as "99-W-99085", where the ISO week is "99-W53". */
  lemma SourceWeekOfYear100()
    ensures SourceWeekOf(100, 1, 1) == WeekNumber(99, -99085)
    ensures SourceWeekKey(100, 1, 1) == "99-W-99085"
    ensures IsoWeekOf(100, 1, 1) == WeekNumber(99, 53)
    ensures GetCurrentWeekKey(100, 1, 1) == "99-W53"
  {
    ComputeSourceWeekOf0100Jan1(100, 1, 1);
    ComputeWeekOf0100Jan1(100, 1, 1);
    KeyText99WMinus99085();
    KeyText99W53();
  }

  /** 2026-10-14 is a Wednesday (day 739902) in week 42 of 2026. */
  lemma ComputeWeekOf2026Oct14(y: int, m: int, d: int)
    requires y == 2026 && m == 10 && d == 14
    ensures IsoWeekOf(y, m, d) == WeekNumber(2026, 42)
  {
    assert ValidDate(y, m, d);
    assert ThursdayYear(y, m, d) == 2026 by {
      assert DayNumber(2026, 10, 14) == 739902;
      assert IsoWeekday(739902) == 3;
      assert DaysBeforeMonth(2026, 10) == 273;
    }
    assert WeekCount(y, m, d, DaysBeforeYear(2026)) == 42 by {
      assert DaysBeforeYear(2026) == 739616;
      assert DayNumber(2026, 10, 14) == 739902;
      assert IsoWeekday(739902) == 3;
    }
    IsoWeekOfBy(y, m, d, 2026, 42);
  }

  lemma WeekOf2026Oct14()
    ensures IsoWeekOf(2026, 10, 14) == WeekNumber(2026, 42)
    ensures GetCurrentWeekKey(2026, 10, 14) == "2026-W42"
  {
    ComputeWeekOf2026Oct14(2026, 10, 14);
    KeyText2026W42();
  }

  /** Day numbers of October 2026: the 12th (day 739900) is a Monday. */
  lemma October2026(d: int)
    requires 1 <= d <= 31
    ensures DayNumber(2026, 10, d) == 739888 + d
    ensures 12 <= d <= 18 ==> MondayOf(739888 + d) == 739900
    ensures MondayOf(739907) == 739907
  {
    assert DaysBeforeYear(2026) == 739616 && DaysBeforeMonth(2026, 10) == 273;
    if 12 <= d <= 18 {
      assert (739888 + d) % 7 == d - 12;
    }
  }

  /** Every day of the week from Monday 2026-10-12 to Sunday 2026-10-18 has the key "2026-W42". */
  lemma KeyOfOneWeek(d: int)
    requires 12 <= d <= 18
    ensures GetCurrentWeekKey(2026, 10, d) == "2026-W42"
  {
    SameWeekInOctober2026(d);
    WeekOf2026Oct14();
  }

  lemma SameWeekInOctober2026(d: int)
    requires 12 <= d <= 18
    ensures GetCurrentWeekKey(2026, 10, d) == GetCurrentWeekKey(2026, 10, 14)
  {
    MondayInOctober2026(d);
    SameKeyIffSameWeek(2026, 10, d, 2026, 10, 14);
  }

  lemma MondayInOctober2026(d: int)
    requires 12 <= d <= 18
    ensures MondayOf(DayNumber(2026, 10, d)) == MondayOf(DayNumber(2026, 10, 14))
  {
    October2026(d);
    October2026(14);
  }

  /** The next Monday, 2026-10-19, starts a new key. */
  lemma KeyChangesOnMonday()
    ensures GetCurrentWeekKey(2026, 10, 19) != GetCurrentWeekKey(2026, 10, 18)
  {
    October2026(18);
    October2026(19);
    SameKeyIffSameWeek(2026, 10, 19, 2026, 10, 18);
  }

  /** 2021-01-01 is a Friday whose Thursday falls in 2020: week 53 of 2020. */
  lemma ComputeWeekOf2021Jan1(y: int, m: int, d: int)
    requires y == 2021 && m == 1 && d == 1
    ensures IsoWeekOf(y, m, d) == WeekNumber(2020, 53)
  {
    assert ValidDate(y, m, d);
    assert ThursdayYear(y, m, d) == 2020 by {
      assert DaysBeforeYear(2021) == 737790 && DayNumber(2021, 1, 1) == 737790;
      assert IsoWeekday(737790) == 5;
      assert DaysBeforeMonth(2021, 1) == 0;
    }
    assert WeekCount(y, m, d, DaysBeforeYear(2020)) == 53 by {
      assert DaysBeforeYear(2021) == 737790 && DayNumber(2021, 1, 1) == 737790;
      assert IsoWeekday(737790) == 5;
      assert DaysBeforeYear(2020) == 737424;
    }
    IsoWeekOfBy(y, m, d, 2020, 53);
  }

  /** 2024-12-30 is a Monday whose Thursday falls in 2025: week 1 of 2025. */
  lemma ComputeWeekOf2024Dec30(y: int, m: int, d: int)
    requires y == 2024 && m == 12 && d == 30
    ensures IsoWeekOf(y, m, d) == WeekNumber(2025, 1)
  {
    assert ValidDate(y, m, d);
    assert ThursdayYear(y, m, d) == 2025 by {
      assert DaysBeforeYear(2024) == 738885 && DaysBeforeMonth(2024, 12) == 335;
      assert DayNumber(2024, 12, 30) == 739249;
      assert IsoWeekday(739249) == 1;
    }
    assert WeekCount(y, m, d, DaysBeforeYear(2025)) == 1 by {
      assert DayNumber(2024, 12, 30) == 739249;
      assert IsoWeekday(739249) == 1;
      assert DaysBeforeYear(2025) == 739251;
    }
    IsoWeekOfBy(y, m, d, 2025, 1);
  }

  /** Near January 1 the ISO year can differ from the calendar year, in either direction. */
  lemma WeekOf2021Jan1()
    ensures IsoWeekOf(2021, 1, 1) == WeekNumber(2020, 53)
    ensures GetCurrentWeekKey(2021, 1, 1) == "2020-W53"
  {
    ComputeWeekOf2021Jan1(2021, 1, 1);
    KeyText2020W53();
  }

  lemma WeekOf2024Dec30()
    ensures IsoWeekOf(2024, 12, 30) == WeekNumber(2025, 1)
    ensures GetCurrentWeekKey(2024, 12, 30) == "2025-W01"
  {
    ComputeWeekOf2024Dec30(2024, 12, 30);
    KeyText2025W01();
  }
}
