/** The itinerary length of `create_tasks`: both form dates are written with
    `strftime("%Y-%m-%d")`, read back with `datetime.strptime(s, "%Y-%m-%d")`,
    and subtracted; `.days` of the difference is the number of calendar days
    between them on the proleptic Gregorian calendar. */
module Calendar {
  import opened Wrappers

  datatype Date = Date(year: int, month: int, day: int)

  predicate IsLeapYear(y: int)
  {
    y % 4 == 0 && (y % 100 != 0 || y % 400 == 0)
  }

  function DaysInYear(y: int): int
  {
    if IsLeapYear(y) then 366 else 365
  }

  function DaysInMonth(y: int, m: int): (n: int)
    requires 1 <= m <= 12
    ensures 28 <= n <= 31
  {
    if m == 2 then (if IsLeapYear(y) then 29 else 28)
    else if m == 4 || m == 6 || m == 9 || m == 11 then 30
    else 31
  }

  /** A day that exists on the proleptic Gregorian calendar, from year 1 on. */
  predicate IsValid(d: Date)
  {
    1 <= d.year && 1 <= d.month <= 12 && 1 <= d.day <= DaysInMonth(d.year, d.month)
  }

  /** Python's `_days_before_year`: days in the years 1 .. y - 1. */
  function DaysBeforeYear(y: int): int
    requires 1 <= y
  {
    var y1 := y - 1;
    y1 * 365 + y1 / 4 - y1 / 100 + y1 / 400
  }

  /** Python's `_days_before_month`: days in the months of year y before m. */
  function DaysBeforeMonth(y: int, m: int): int
    requires 1 <= m <= 12
  {
    [0, 31, 59, 90, 120, 151, 181, 212, 243, 273, 304, 334][m - 1]
      + (if m > 2 && IsLeapYear(y) then 1 else 0)
  }

  /** `date.toordinal()`: 0001-01-01 is day 1. */
  function Ordinal(d: Date): int
    requires IsValid(d)
  {
    DaysBeforeYear(d.year) + DaysBeforeMonth(d.year, d.month) + d.day
  }

  /** An independent count of the days before year y: year lengths summed one
      by one. */
  function YearLengthsBefore(y: int): int
    requires 1 <= y
    decreases y
  {
    if y == 1 then 0 else YearLengthsBefore(y - 1) + DaysInYear(y - 1)
  }

  lemma DivStep(y: int, k: int)
    requires 1 <= y && (k == 4 || k == 100 || k == 400)
    ensures y / k - (y - 1) / k == if y % k == 0 then 1 else 0
  {
    if k == 4 {
      assert y / 4 - (y - 1) / 4 == if y % 4 == 0 then 1 else 0;
    } else if k == 100 {
      assert y / 100 - (y - 1) / 100 == if y % 100 == 0 then 1 else 0;
    } else {
      assert y / 400 - (y - 1) / 400 == if y % 400 == 0 then 1 else 0;
    }
  }

  /** The closed formula steps by exactly one year length. */
  lemma YearStep(y: int)
    requires 1 <= y
    ensures DaysBeforeYear(y + 1) == DaysBeforeYear(y) + DaysInYear(y)
  {
    DivStep(y, 4);
    DivStep(y, 100);
    DivStep(y, 400);
    assert y % 400 == 0 ==> y % 100 == 0;
    assert y % 100 == 0 ==> y % 4 == 0;
  }

  /** The leap-year formula of `_days_before_year` agrees with counting the
      years one by one. */
  lemma {:induction false} DaysBeforeYearCountsYears(y: int)
    requires 1 <= y
    ensures DaysBeforeYear(y) == YearLengthsBefore(y)
    decreases y
  {
    if y > 1 {
      DaysBeforeYearCountsYears(y - 1);
      YearStep(y - 1);
    }
  }

  lemma MonthStep(y: int, m: int)
    requires 1 <= m <= 12
    ensures DaysBeforeMonth(y, m) + DaysInMonth(y, m)
         == if m == 12 then DaysInYear(y) else DaysBeforeMonth(y, m + 1)
  {
  }

  /** The day after d. */
  function NextDay(d: Date): (r: Date)
    requires IsValid(d)
    ensures IsValid(r)
  {
    if d.day < DaysInMonth(d.year, d.month) then Date(d.year, d.month, d.day + 1)
    else if d.month < 12 then Date(d.year, d.month + 1, 1)
    else Date(d.year + 1, 1, 1)
  }

  /** Consecutive days have consecutive ordinals. */
  lemma NextDayOrdinal(d: Date)
    requires IsValid(d)
    ensures Ordinal(NextDay(d)) == Ordinal(d) + 1
  {
    MonthStep(d.year, d.month);
    if d.day == DaysInMonth(d.year, d.month) && d.month == 12 {
      YearStep(d.year);
    }
  }

  /** `d + timedelta(days=n)` for n >= 0. */
  function AddDays(d: Date, n: nat): (r: Date)
    requires IsValid(d)
    ensures IsValid(r) && d.year <= r.year
    decreases n
  {
    if n == 0 then d else AddDays(NextDay(d), n - 1)
  }

  lemma {:induction false} AddDaysOrdinal(d: Date, n: nat)
    requires IsValid(d)
    ensures Ordinal(AddDays(d, n)) == Ordinal(d) + n
    decreases n
  {
    if n > 0 {
      NextDayOrdinal(d);
      AddDaysOrdinal(NextDay(d), n - 1);
    }
  }

  lemma {:induction false} AddDaysAdd(d: Date, m: nat, n: nat)
    requires IsValid(d)
    ensures AddDays(AddDays(d, m), n) == AddDays(d, m + n)
    decreases m
  {
    if m > 0 {
      AddDaysAdd(NextDay(d), m - 1, n);
    }
  }

  /** Calendar order: year, then month, then day. */
  predicate Before(a: Date, b: Date)
  {
    a.year < b.year ||
    (a.year == b.year && (a.month < b.month || (a.month == b.month && a.day < b.day)))
  }

  lemma {:induction false} DaysBeforeYearGrows(y: int, z: int)
    requires 1 <= y < z
    ensures DaysBeforeYear(y) + DaysInYear(y) <= DaysBeforeYear(z)
    decreases z - y
  {
    YearStep(y);
    if y + 1 < z {
      DaysBeforeYearGrows(y + 1, z);
      YearStep(y + 1);
    }
  }

  lemma DaysBeforeMonthGrows(y: int, m: int, n: int)
    requires 1 <= m < n <= 12
    ensures DaysBeforeMonth(y, m) + DaysInMonth(y, m) <= DaysBeforeMonth(y, n)
  {
    MonthStep(y, m);
  }

  lemma WithinYear(d: Date)
    requires IsValid(d)
    ensures 1 <= DaysBeforeMonth(d.year, d.month) + d.day <= DaysInYear(d.year)
  {
    MonthStep(d.year, d.month);
    if d.month < 11 {
      DaysBeforeMonthGrows(d.year, d.month + 1, 12);
      MonthStep(d.year, 12);
    }
  }

  /** Ordinals follow calendar order. */
  lemma OrdinalFollowsOrder(a: Date, b: Date)
    requires IsValid(a) && IsValid(b) && Before(a, b)
    ensures Ordinal(a) < Ordinal(b)
  {
    WithinYear(a);
    WithinYear(b);
    if a.year < b.year {
      DaysBeforeYearGrows(a.year, b.year);
    } else if a.month < b.month {
      DaysBeforeMonthGrows(a.year, a.month, b.month);
    }
  }

  /** Two days are ordered, and as far apart, as their ordinals say. */
  lemma OrdinalOrder(a: Date, b: Date)
    requires IsValid(a) && IsValid(b)
    ensures Before(a, b) <==> Ordinal(a) < Ordinal(b)
    ensures a == b <==> Ordinal(a) == Ordinal(b)
  {
    if Before(a, b) {
      OrdinalFollowsOrder(a, b);
    } else if Before(b, a) {
      OrdinalFollowsOrder(b, a);
    }
  }

  predicate IsDigit(c: char) { '0' <= c <= '9' }

  function DigitValue(c: char): (v: int)
    requires IsDigit(c)
    ensures 0 <= v <= 9
  {
    c as int - '0' as int
  }

  function DigitChar(v: int): (c: char)
    requires 0 <= v <= 9
    ensures IsDigit(c) && DigitValue(c) == v
  {
    ('0' as int + v) as char
  }

  /** `%m` of `strptime`: the alternatives `1[0-2]`, `0[1-9]`, `[1-9]`, in
      that order, each followed by the format's `-`. Gives the month and the
      number of characters it took. */
  function MatchMonth(t: string): (r: Option<(int, nat)>)
    ensures r.Some? ==> 1 <= r.value.0 <= 12 && 1 <= r.value.1 < |t| && r.value.1 <= 2
    ensures r.Some? ==> t[r.value.1] == '-'
  {
    if |t| >= 3 && t[0] == '1' && '0' <= t[1] <= '2' && t[2] == '-' then
      Some((10 + DigitValue(t[1]), 2))
    else if |t| >= 3 && t[0] == '0' && '1' <= t[1] <= '9' && t[2] == '-' then
      Some((DigitValue(t[1]), 2))
    else if |t| >= 2 && '1' <= t[0] <= '9' && t[1] == '-' then
      Some((DigitValue(t[0]), 1))
    else None
  }

  /** `%d` of `strptime`: the first of `3[01]`, `[12]\d`, `0[1-9]`, `[1-9]`,
      ` [1-9]` that matches a prefix of t. */
  function MatchDay(t: string): (r: Option<(int, nat)>)
    ensures r.Some? ==> 1 <= r.value.0 <= 31 && 1 <= r.value.1 <= 2 && r.value.1 <= |t|
  {
    if |t| >= 2 && t[0] == '3' && '0' <= t[1] <= '1' then
      Some((30 + DigitValue(t[1]), 2))
    else if |t| >= 2 && '1' <= t[0] <= '2' && IsDigit(t[1]) then
      Some((10 * DigitValue(t[0]) + DigitValue(t[1]), 2))
    else if |t| >= 2 && t[0] == '0' && '1' <= t[1] <= '9' then
      Some((DigitValue(t[1]), 2))
    else if |t| >= 1 && '1' <= t[0] <= '9' then
      Some((DigitValue(t[0]), 1))
    else if |t| >= 2 && t[0] == ' ' && '1' <= t[1] <= '9' then
      Some((DigitValue(t[1]), 2))
    else None
  }

  /** `datetime.strptime(s, "%Y-%m-%d")`; None where it raises ValueError: the
      text does not match, data is left over after the day, or the day does
      not exist (year 0, February 30). */
  function ParseIsoDate(s: string): (r: Option<Date>)
    ensures r.Some? ==> IsValid(r.value) && r.value.year <= 9999
  {
    if |s| < 5 || !IsDigit(s[0]) || !IsDigit(s[1]) || !IsDigit(s[2]) || !IsDigit(s[3]) || s[4] != '-' then
      None
    else
      var year := 1000 * DigitValue(s[0]) + 100 * DigitValue(s[1]) + 10 * DigitValue(s[2]) + DigitValue(s[3]);
      match MatchMonth(s[5..])
      case None => None
      case Some((month, monthLength)) =>
        var rest := s[5 + monthLength + 1..];
        match MatchDay(rest)
        case None => None
        case Some((day, dayLength)) =>
          if dayLength != |rest| then None
          else if year < 1 || day > DaysInMonth(year, month) then None
          else Some(Date(year, month, day))
  }

  /** A number below 100 in two decimal digits, zero-padded. */
  function TwoDigits(v: int): (s: string)
    requires 0 <= v <= 99
    ensures |s| == 2 && IsDigit(s[0]) && IsDigit(s[1])
    ensures DigitValue(s[0]) == v / 10 && DigitValue(s[1]) == v % 10
  {
    [DigitChar(v / 10), DigitChar(v % 10)]
  }

  /** `d.strftime("%Y-%m-%d")` for four-digit years: the year in four digits,
      the month and the day zero-padded to two, separated by `-` (the
      full-date format of section 5.6 of RFC 3339). */
  function FormatIsoDate(d: Date): (s: string)
    requires IsValid(d) && 1000 <= d.year <= 9999
    ensures |s| == 10 && s[4] == '-' && s[7] == '-'
    ensures forall i | 0 <= i < 10 && i != 4 && i != 7 :: IsDigit(s[i])
    ensures 1000 * DigitValue(s[0]) + 100 * DigitValue(s[1]) + 10 * DigitValue(s[2]) + DigitValue(s[3]) == d.year
    ensures 10 * DigitValue(s[5]) + DigitValue(s[6]) == d.month
    ensures 10 * DigitValue(s[8]) + DigitValue(s[9]) == d.day
  {
    TwoDigits(d.year / 100) + TwoDigits(d.year % 100) + "-" + TwoDigits(d.month) + "-" + TwoDigits(d.day)
  }

  /** What the form writes, `strptime` reads back unchanged. */
  lemma ParseFormatRoundTrip(d: Date)
    requires IsValid(d) && 1000 <= d.year <= 9999
    ensures ParseIsoDate(FormatIsoDate(d)) == Some(d)
  {
    var s := FormatIsoDate(d);
    assert s[5..] == TwoDigits(d.month) + "-" + TwoDigits(d.day);
    assert MatchMonth(s[5..]) == Some((d.month, 2));
    assert s[8..] == TwoDigits(d.day);
    assert MatchDay(s[8..]) == Some((d.day, 2));
  }

  /** `days = (end_date - start_date).days` of `create_tasks`; None where
      either `strptime` raises. */
  function TripDays(outboundDate: string, returnDate: string): Option<int>
  {
    match ParseIsoDate(outboundDate)
    case None => None
    case Some(start) =>
      match ParseIsoDate(returnDate)
      case None => None
      case Some(end) => Some(Ordinal(end) - Ordinal(start))
  }

  lemma TripDaysOfParsed(outboundDate: string, returnDate: string)
    requires ParseIsoDate(outboundDate).Some? && ParseIsoDate(returnDate).Some?
    ensures TripDays(outboundDate, returnDate)
         == Some(Ordinal(ParseIsoDate(returnDate).value) - Ordinal(ParseIsoDate(outboundDate).value))
  {
  }

  /** The trip length is positive exactly when the return date is later, zero
      exactly when the dates are the same day, and negative exactly when the
      return date is earlier: nothing rejects a return before departure. */
  lemma TripDaysSign(outboundDate: string, returnDate: string)
    requires TripDays(outboundDate, returnDate).Some?
    ensures var start, end, days := ParseIsoDate(outboundDate).value, ParseIsoDate(returnDate).value,
                                     TripDays(outboundDate, returnDate).value;
      && (days > 0 <==> Before(start, end))
      && (days == 0 <==> start == end)
      && (days < 0 <==> Before(end, start))
  {
    OrdinalOrder(ParseIsoDate(outboundDate).value, ParseIsoDate(returnDate).value);
    OrdinalOrder(ParseIsoDate(returnDate).value, ParseIsoDate(outboundDate).value);
  }

  /** Swapping the dates negates the trip length. */
  lemma TripDaysSwap(outboundDate: string, returnDate: string)
    ensures TripDays(returnDate, outboundDate).Some? == TripDays(outboundDate, returnDate).Some?
    ensures TripDays(outboundDate, returnDate).Some? ==>
      TripDays(returnDate, outboundDate).value == -TripDays(outboundDate, returnDate).value
  {
  }

  /** Two dates the form wrote are as many days apart as their ordinals. */
  lemma TripDaysOfFormatted(a: Date, b: Date)
    requires IsValid(a) && 1000 <= a.year <= 9999
    requires IsValid(b) && 1000 <= b.year <= 9999
    ensures TripDays(FormatIsoDate(a), FormatIsoDate(b)) == Some(Ordinal(b) - Ordinal(a))
  {
    var outbound, back := FormatIsoDate(a), FormatIsoDate(b);
    ParseFormatRoundTrip(a);
    ParseFormatRoundTrip(b);
    assert ParseIsoDate(outbound) == Some(a) && ParseIsoDate(back) == Some(b);
  }

  /** A return date n days after the departure, both written by the form,
      gives an n-day itinerary. */
  lemma TripDaysCountsDays(d: Date, n: nat)
    requires IsValid(d) && 1000 <= d.year && AddDays(d, n).year <= 9999
    ensures TripDays(FormatIsoDate(d), FormatIsoDate(AddDays(d, n))) == Some(n)
  {
    var e := AddDays(d, n);
    assert Ordinal(e) == Ordinal(d) + n by { AddDaysOrdinal(d, n); }
    TripDaysOfFormatted(d, e);
  }

  /** Offsets, in days after tomorrow, of the form's default departure and
      return dates. */
  const DefaultOutboundDays: nat := 100
  const DefaultReturnDays: nat := 107

  /** The form's default dates give a 7-day itinerary, whatever today is. */
  lemma DefaultFormDates(today: Date)
    requires IsValid(today) && 1000 <= today.year
    requires AddDays(NextDay(today), DefaultReturnDays).year <= 9999
    ensures AddDays(NextDay(today), DefaultOutboundDays).year <= 9999
    ensures var tomorrow := NextDay(today);
      TripDays(FormatIsoDate(AddDays(tomorrow, DefaultOutboundDays)),
               FormatIsoDate(AddDays(tomorrow, DefaultReturnDays))) == Some(7)
  {
    var tomorrow := NextDay(today);
    var outbound := AddDays(tomorrow, DefaultOutboundDays);
    assert AddDays(outbound, 7) == AddDays(tomorrow, DefaultReturnDays) by {
      AddDaysAdd(tomorrow, DefaultOutboundDays, 7);
    }
    TripDaysCountsDays(outbound, 7);
  }

  /** A week-long trip, and the same trip read backwards. */
  lemma TripDaysWeek()
    ensures TripDays("2025-03-01", "2025-03-08") == Some(7)
    ensures TripDays("2025-03-08", "2025-03-01") == Some(-7)
  {
    assert ParseIsoDate("2025-03-01") == Some(Date(2025, 3, 1));
    assert ParseIsoDate("2025-03-08") == Some(Date(2025, 3, 8));
  }

  /** `strptime` also takes months and days without the leading zero. */
  lemma ParseUnpadded()
    ensures ParseIsoDate("2025-3-1") == Some(Date(2025, 3, 1))
  {
    assert "2025-3-1"[5..] == "3-1";
  }

  /** Days that do not exist, and data left after the day, raise. */
  lemma ParseRejects()
    ensures ParseIsoDate("2025-02-29") == None
    ensures ParseIsoDate("2025-01-32") == None
    ensures ParseIsoDate("0000-01-01") == None
  {
    assert "2025-01-32"[5..] == "01-32";
    assert "2025-01-32"[8..] == "32";
  }
}
