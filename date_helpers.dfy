/**
 * The date helpers of `src/utils/dateHelpers.jsx`: the Monday-first week of a
 * date, the `YYYY-MM-DD` comparison key and the one-character weekday name.
 * Dates are day indices (see module Calendar); the time of day that the
 * source carries along in its `Date` objects plays no part in these helpers.
 */
module DateHelpers {
  import opened Text
  import opened Calendar

  /** How many days `getWeekDays` steps back to reach Monday. */
  function DaysSinceMonday(day: int): (back: int)
    ensures 0 <= back < 7 && Weekday(day - back) == 1
  {
    var w := Weekday(day);
    if w == 0 then 6 else w - 1
  }

  /** `getWeekDays(date)`: the seven consecutive days, Monday first, of the week holding `day`. */
  method GetWeekDays(day: int) returns (week: seq<int>)
    ensures |week| == 7
    ensures week[0] == day - DaysSinceMonday(day) && Weekday(week[0]) == 1
    ensures forall i :: 0 < i < 7 ==> week[i] == week[i - 1] + 1
    ensures day in week && week[DaysSinceMonday(day)] == day
  {
    var weekStart := day - DaysSinceMonday(day);
    week := [];
    for i := 0 to 7
      invariant |week| == i
      invariant forall k :: 0 <= k < i ==> week[k] == weekStart + k
    {
      week := week + [weekStart + i];
    }
    assert week[DaysSinceMonday(day)] == day;
  }

  /** `formatDateKey(date)`: `${year}-${MM}-${DD}` with month and day zero-padded to two digits. */
  function FormatDateKey(c: CivilDate): string
  {
    IntToString(c.year) + "-" + Pad2(c.month) + "-" + Pad2(c.day)
  }

  /** The key of a day. */
  function DayKey(day: int): string
  {
    FormatDateKey(CivilOf(day))
  }

  /** The key ends in "-MM-DD" and starts with the year's text. */
  lemma FormatDateKeyShape(c: CivilDate)
    requires ValidCivil(c)
    ensures var k := FormatDateKey(c);
      |k| == |IntToString(c.year)| + 6
      && k[..|IntToString(c.year)|] == IntToString(c.year)
      && k[|k| - 6] == '-' && k[|k| - 3] == '-'
      && k[|k| - 5..|k| - 3] == Pad2(c.month) && k[|k| - 2..] == Pad2(c.day)
  {
    Pad2Digits(c.month);
    Pad2Digits(c.day);
  }

  /** Two dates get the same key exactly when they have the same year, month and day. */
  lemma FormatDateKeyInjective(a: CivilDate, b: CivilDate)
    requires ValidCivil(a) && ValidCivil(b)
    ensures FormatDateKey(a) == FormatDateKey(b) <==> a == b
  {
    if FormatDateKey(a) == FormatDateKey(b) {
      FormatDateKeyShape(a);
      FormatDateKeyShape(b);
      IntToStringInjective(a.year, b.year);
      Pad2Injective(a.month, b.month);
      Pad2Injective(a.day, b.day);
    }
  }

  const DayNames: seq<string> := ["日", "一", "二", "三", "四", "五", "六"]

  /** `getDayName(date)`: the weekday's character, Sunday being 日. */
  function GetDayName(day: int): (name: string)
    ensures name in DayNames
    ensures name == "日" <==> Weekday(day) == 0
  {
    DayNames[Weekday(day)]
  }

  /** Two days have the same name exactly when they fall on the same weekday. */
  lemma DayNameInjective(a: int, b: int)
    ensures GetDayName(a) == GetDayName(b) <==> Weekday(a) == Weekday(b)
  {
    assert forall i, j :: 0 <= i < j < 7 ==> DayNames[i] != DayNames[j];
  }

  /** The days `getWeekDays` returns are named 一 二 三 四 五 六 日, in that order. */
  lemma WeekDayNames(day: int, week: seq<int>)
    requires |week| == 7 && Weekday(week[0]) == 1
    requires forall i :: 0 < i < 7 ==> week[i] == week[i - 1] + 1
    ensures seq(7, i requires 0 <= i < 7 => GetDayName(week[i])) == ["一", "二", "三", "四", "五", "六", "日"]
  {
    forall i | 0 <= i < 7
      ensures week[i] == week[0] + i
    {
      var k := 0;
      while k < i
        invariant 0 <= k <= i && week[k] == week[0] + k
      {
        k := k + 1;
      }
    }
    forall i | 0 <= i < 7
      ensures Weekday(week[i]) == (i + 1) % 7
    {
      assert Weekday(week[0] + i) == (Weekday(week[0]) + i) % 7;
    }
  }
}
