/**
 * The local-time view of JavaScript `Date` the application uses.
 *
 * An instant is a whole number of LOCAL minutes since 1970-01-01 00:00 (the
 * time zone is folded in); a day is a whole number of days since 1970-01-01.
 * The calendar is the proleptic Gregorian one that `Date` implements.
 */
module Calendar {
  import opened Text

  const MinutesPerDay: int := 1440

  /** The local day an instant falls on (floor division, also before 1970). */
  function DayOf(t: int): int
  {
    t / MinutesPerDay
  }

  /** Minutes since local midnight. */
  function MinuteOfDay(t: int): (m: int)
    ensures 0 <= m < MinutesPerDay
  {
    t % MinutesPerDay
  }

  /** `getHours()`. */
  function Hours(t: int): (h: int)
    ensures 0 <= h < 24
  {
    MinuteOfDay(t) / 60
  }

  /** `getMinutes()`. */
  function Minutes(t: int): (m: int)
    ensures 0 <= m < 60
  {
    MinuteOfDay(t) % 60
  }

  /** A day's instant at `h:m`: `setHours(h, m, 0, 0)` on a date of that day. */
  function At(day: int, h: int, m: int): int
  {
    day * MinutesPerDay + h * 60 + m
  }

  /** `At` is undone by `DayOf`, `Hours` and `Minutes`. */
  lemma AtParts(day: int, h: int, m: int)
    requires 0 <= h < 24 && 0 <= m < 60
    ensures DayOf(At(day, h, m)) == day
    ensures MinuteOfDay(At(day, h, m)) == h * 60 + m
    ensures Hours(At(day, h, m)) == h && Minutes(At(day, h, m)) == m
  {
    var t := At(day, h, m);
    assert t == day * MinutesPerDay + (h * 60 + m);
    assert 0 <= h * 60 + m < MinutesPerDay;
  }

  /** An instant is its day's midnight plus its minute of the day. */
  lemma InstantParts(t: int)
    ensures t == At(DayOf(t), Hours(t), Minutes(t))
  {
  }

  /** `getFullYear()`, `getMonth() + 1` and `getDate()` of a date. */
  datatype CivilDate = CivilDate(year: int, month: int, day: int)

  /** The Gregorian leap-year rule. */
  predicate IsLeapYear(y: int)
  {
    y % 4 == 0 && (y % 100 != 0 || y % 400 == 0)
  }

  /** The length of month `m` (1 is January) of year `y`. */
  function DaysInMonth(y: int, m: int): int
  {
    if m == 2 then (if IsLeapYear(y) then 29 else 28)
    else if m == 4 || m == 6 || m == 9 || m == 11 then 30
    else 31
  }

  /** A date that exists in the calendar. */
  predicate ValidCivil(c: CivilDate)
  {
    1 <= c.month <= 12 && 1 <= c.day <= DaysInMonth(c.year, c.month)
  }

  /**
   * The Gregorian date of a day, counting in 400-, 100-, 4- and 1-year
   * cycles from 0000-03-01 (so that a leap day ends its year).
   */
  function CivilOf(day: int): (c: CivilDate)
    ensures ValidCivil(c)
  {
    var z := day + 719468;
    var era := z / 146097;
    var doe := z % 146097;
    var cen := if doe / 36524 < 3 then doe / 36524 else 3;
    var doc := doe - 36524 * cen;
    var quad := doc / 1461;
    var doq := doc % 1461;
    var yq := if doq / 365 < 3 then doq / 365 else 3;
    var doy := doq - 365 * yq;
    assert 0 <= doy <= 365;
    var yoe := 100 * cen + 4 * quad + yq;
    var mp := (5 * doy + 2) / 153;
    assert 0 <= mp <= 11;
    var d := doy - (153 * mp + 2) / 5 + 1;
    var m := if mp < 10 then mp + 3 else mp - 9;
    var y := era * 400 + yoe + (if m <= 2 then 1 else 0);
    assert 1 <= d <= DaysInMonth(y, m) by {
      MonthDayBounds(doy, mp);
      if doy == 365 {
        LeapDay(doe, cen, doc, quad, doq, yq);
        assert y == era * 400 + 100 * cen + 4 * quad + 4;
        LeapYearOf(era, cen, quad, doc);
      }
    }
    CivilDate(y, m, d)
  }

  /**
   * Within a year that starts on 1 March, day `doy` falls in month `mp`
   * (0 is March) on a day no later than that month's end; February reaches
   * its 29th only on the year's last day.
   */
  lemma MonthDayBounds(doy: int, mp: int)
    requires 0 <= doy <= 365 && mp == (5 * doy + 2) / 153
    ensures var d := doy - (153 * mp + 2) / 5 + 1;
      1 <= d && (mp == 11 ==> d <= (if doy == 365 then 29 else 28))
      && (mp < 11 ==> d <= DaysInMonth(0, if mp < 10 then mp + 3 else mp - 9))
  {
    var q := (153 * mp + 2) / 5;
    assert 153 * mp <= 5 * doy + 2 < 153 * mp + 153;
    assert 5 * q <= 153 * mp + 2 < 5 * q + 5;
    assert 0 <= mp <= 11;
    if mp == 0 { assert q == 0; }
    else if mp == 1 { assert q == 31; }
    else if mp == 2 { assert q == 61; }
    else if mp == 3 { assert q == 92; }
    else if mp == 4 { assert q == 122; }
    else if mp == 5 { assert q == 153; }
    else if mp == 6 { assert q == 184; }
    else if mp == 7 { assert q == 214; }
    else if mp == 8 { assert q == 245; }
    else if mp == 9 { assert q == 275; }
    else if mp == 10 { assert q == 306; }
    else { assert q == 337; }
  }

  /** The last day of a March-based year only occurs in the fourth year of a four-year cycle. */
  lemma LeapDay(doe: int, cen: int, doc: int, quad: int, doq: int, yq: int)
    requires 0 <= doe < 146097
    requires cen == (if doe / 36524 < 3 then doe / 36524 else 3) && doc == doe - 36524 * cen
    requires quad == doc / 1461 && doq == doc % 1461
    requires yq == (if doq / 365 < 3 then doq / 365 else 3) && doq - 365 * yq == 365
    ensures yq == 3 && 0 <= cen <= 3 && 0 <= quad <= 24 && doc == 1461 * quad + 1460
    ensures cen < 3 ==> doc <= 36523
  {
  }

  /** The year that ends on such a day is a leap year. */
  lemma LeapYearOf(era: int, cen: int, quad: int, doc: int)
    requires 0 <= cen <= 3 && 0 <= quad <= 24 && doc == 1461 * quad + 1460
    requires cen < 3 ==> doc <= 36523
    ensures IsLeapYear(era * 400 + 100 * cen + 4 * quad + 4)
  {
    var y := era * 400 + 100 * cen + 4 * quad + 4;
    assert y == 4 * (era * 100 + 25 * cen + quad + 1);
    if quad < 24 {
      var k := era * 4 + cen;
      assert y == 100 * k + 4 * (quad + 1) && 0 < 4 * (quad + 1) < 100;
    } else {
      assert cen == 3;
      assert y == 400 * (era + 1);
    }
  }

  /** Day 0 is 1970-01-01. */
  lemma CivilOfEpoch()
    ensures CivilOf(0) == CivilDate(1970, 1, 1)
  {
  }

  /** `getDay()`: 0 is Sunday; 1970-01-01 was a Thursday. */
  function Weekday(day: int): (w: int)
    ensures 0 <= w < 7
  {
    (day + 4) % 7
  }

  /** The next day is the next weekday, Saturday wrapping round to Sunday. */
  lemma WeekdayNext(day: int)
    ensures Weekday(day + 1) == (Weekday(day) + 1) % 7
  {
  }

  const WeekdayAbbrevs: seq<string> := ["Sun", "Mon", "Tue", "Wed", "Thu", "Fri", "Sat"]
  const MonthAbbrevs: seq<string> :=
    ["Jan", "Feb", "Mar", "Apr", "May", "Jun", "Jul", "Aug", "Sep", "Oct", "Nov", "Dec"]

  /** `String(n).padStart(4, '0')` for a non-negative `n`. */
  function Pad4(n: nat): string
  {
    var s := NatToString(n);
    if |s| < 4 then seq(4 - |s|, _ => '0') + s else s
  }

  /**
   * `toDateString()`: "Www Mmm DD YYYY", the year zero-padded to four digits
   * and preceded by "-" before year 0.
   */
  function DateString(day: int): string
  {
    var c := CivilOf(day);
    var year := if c.year < 0 then "-" + Pad4(-c.year) else Pad4(c.year);
    WeekdayAbbrevs[Weekday(day)] + " " + MonthAbbrevs[c.month - 1] + " " + Pad2(c.day) + " " + year
  }
}
