/**
 * The daily Lunch entry of `src/data/dummyTodos.js`: `ensureMealToday` makes
 * sure the list holds a Lunch todo (id 5) dated today, unless the user
 * skipped today's Lunch less than twelve hours ago.
 *
 * "Today" is a day index, `Date.now()` a number of milliseconds; `new Date(s)`
 * and `toISOString()` are the parameters `parse` and `iso`. The stored skip
 * mark is the field of a `SkipStore`, whose methods clear or set it the way
 * the source clears or writes its storage key.
 */
module DailyLunch {
  import opened Wrappers
  import opened Calendar
  import opened Todos

  /** The id of the Lunch todo. */
  const MealId: int := 5

  /** A skip mark older than twelve hours no longer counts. */
  const SkipExpiryMs: int := 12 * 60 * 60 * 1000

  /**
   * The stored skip mark as `getSkipLunchDate` reads it: its date text ("" for
   * a missing one) and its timestamp when that is a number. The legacy
   * plain-string format reads as a mark without a timestamp.
   */
  datatype SkipRecord = SkipRecord(date: string, ts: Option<int>)

  // ---------------------------------------------------------------- the skip mark

  /**
   * One of the three reasons to clear the mark holds: it is from another day,
   * its (non-zero) timestamp is more than twelve hours old, or it is from
   * today but has no timestamp.
   */
  predicate Expired(rec: Option<SkipRecord>, todayKey: string, now: int)
  {
    rec.Some? &&
    var r := rec.value;
    (r.date != "" && r.date != todayKey)
    || (r.ts.Some? && r.ts.value != 0 && now - r.ts.value > SkipExpiryMs)
    || (r.date != "" && r.date == todayKey && r.ts.None?)
  }

  /** The stored mark once `ensureMealToday` has run. */
  function RecordAfter(rec: Option<SkipRecord>, todayKey: string, now: int): Option<SkipRecord>
  {
    if Expired(rec, todayKey, now) then None else rec
  }

  /** The mark keeps Lunch away: it is from today, with a timestamp less than twelve hours old. */
  predicate SkipStillValid(rec: Option<SkipRecord>, todayKey: string, now: int)
  {
    rec.Some? && rec.value.date != "" && rec.value.date == todayKey
    && rec.value.ts.Some? && now - rec.value.ts.value < SkipExpiryMs
  }

  /** A mark that still keeps Lunch away is never cleared. */
  lemma ValidSkipSurvives(rec: Option<SkipRecord>, todayKey: string, now: int)
    requires SkipStillValid(rec, todayKey, now)
    ensures RecordAfter(rec, todayKey, now) == rec
  {
  }

  /**
   * Clearing is settled after one run: a second run with the same today and
   * now clears nothing more and finds the mark exactly as valid as the first.
   */
  lemma RecordAfterIdempotent(rec: Option<SkipRecord>, todayKey: string, now: int)
    ensures RecordAfter(RecordAfter(rec, todayKey, now), todayKey, now) == RecordAfter(rec, todayKey, now)
    ensures SkipStillValid(RecordAfter(rec, todayKey, now), todayKey, now) == SkipStillValid(rec, todayKey, now)
  {
  }

  // ---------------------------------------------------------------- the list

  /** `findIndex(t => t.id === id)`: the first index holding `id`, if any. */
  function FindId(s: seq<Todo>, id: int): (r: Option<nat>)
    ensures r.Some? ==> r.value < |s| && s[r.value].id == id && forall j :: 0 <= j < r.value ==> s[j].id != id
    ensures r.None? ==> forall j :: 0 <= j < |s| ==> s[j].id != id
  {
    if s == [] then None
    else if s[0].id == id then Some(0)
    else match FindId(s[1..], id)
      case None => None
      case Some(k) => Some(k + 1)
  }

  /** The first index holding `id` is what `FindId` finds. */
  lemma FindIdIs(s: seq<Todo>, id: int, i: nat)
    requires i < |s| && s[i].id == id && forall j :: 0 <= j < i ==> s[j].id != id
    ensures FindId(s, id) == Some(i)
  {
    var r := FindId(s, id);
    assert r.Some?;
    assert !(r.value < i) && !(r.value > i);
  }

  /** `todayAt`: today at `hours:minutes`, as ISO text. */
  function TodayAt(hours: int, minutes: int, today: int, iso: Iso): string
  {
    iso(At(today, hours, minutes))
  }

  /** The Lunch record the source appends and seeds. */
  function LunchTodo(time: string): Todo
  {
    Todo(MealId, "Lunch", None, None, time, false, "60", "", false, [])
  }

  /** `toDateString()` of a parsed date; an Invalid Date prints "Invalid Date". */
  function ToDateString(d: Option<int>): string
  {
    match d
    case None => "Invalid Date"
    case Some(t) => DateString(DayOf(t))
  }

  /** `isSameDay(mealDate, todayKey)`, with `mealDate` null for an empty time. */
  predicate IsSameDay(time: string, todayKey: string, parse: Parser)
  {
    time != "" && ToDateString(parse(time)) == todayKey
  }

  /**
   * `buildMealTime`: today at the old time's hour and minute, or at 12:00 when
   * there is no old time. An unparseable old time makes `toISOString` throw:
   * `None`.
   */
  function BuildMealTime(baseTime: string, today: int, parse: Parser, iso: Iso): Option<string>
  {
    if baseTime == "" then Some(TodayAt(12, 0, today, iso))
    else match parse(baseTime)
      case None => None
      case Some(t) => Some(TodayAt(Hours(t), Minutes(t), today, iso))
  }

  /** What `ensureMealToday` returns, given the stored mark it reads. */
  function EnsureMeal(todos: Stored<Todo>, rec: Option<SkipRecord>, today: int, now: int, parse: Parser, iso: Iso)
    : Result<seq<Todo>>
  {
    var s := Safe(todos);
    var todayKey := DateString(today);
    match FindId(s, MealId)
    case None =>
      if SkipStillValid(rec, todayKey, now) then Success(s)
      else Success(s + [LunchTodo(TodayAt(12, 0, today, iso))])
    case Some(i) =>
      if IsSameDay(s[i].time, todayKey, parse) then Success(s)
      else match BuildMealTime(s[i].time, today, parse, iso)
        case None => Failure("RangeError: Invalid time value")
        case Some(t) => Success(s[i := s[i].(time := t)])
  }

  /** `toISOString` never yields empty text, and `new Date` reads it back. */
  ghost predicate IsoRoundTrip(parse: Parser, iso: Iso)
  {
    forall t :: iso(t) != "" && parse(iso(t)) == Some(t)
  }

  /** A stored value that is not an array is treated as the empty list. */
  lemma EnsureMealNonArray(rec: Option<SkipRecord>, today: int, now: int, parse: Parser, iso: Iso)
    ensures EnsureMeal(NonArray, rec, today, now, parse, iso)
         == if SkipStillValid(rec, DateString(today), now) then Success([])
            else Success([LunchTodo(TodayAt(12, 0, today, iso))])
  {
    assert [] + [LunchTodo(TodayAt(12, 0, today, iso))] == [LunchTodo(TodayAt(12, 0, today, iso))];
  }

  /**
   * Without a Lunch todo: unless the mark still keeps it away, one Lunch at
   * today 12:00 is appended and the list before it is the input.
   */
  lemma AddsLunch(s: seq<Todo>, rec: Option<SkipRecord>, today: int, now: int, parse: Parser, iso: Iso)
    requires forall j :: 0 <= j < |s| ==> s[j].id != MealId
    ensures var r := EnsureMeal(Arr(s), rec, today, now, parse, iso);
      r.Success?
      && (SkipStillValid(rec, DateString(today), now) ==> r.value == s)
      && (!SkipStillValid(rec, DateString(today), now) ==>
            |r.value| == |s| + 1 && r.value[..|s|] == s && r.value[|s|] == LunchTodo(iso(At(today, 12, 0))))
  {
    var r := EnsureMeal(Arr(s), rec, today, now, parse, iso);
    if !SkipStillValid(rec, DateString(today), now) {
      assert r.value == s + [LunchTodo(iso(At(today, 12, 0)))];
    }
  }

  /** The appended Lunch lies on today, at 12:00. */
  lemma AddedLunchIsToday(today: int, parse: Parser, iso: Iso)
    requires IsoRoundTrip(parse, iso)
    ensures var t := LunchTodo(TodayAt(12, 0, today, iso)).time;
      parse(t).Some? && DayOf(parse(t).value) == today
      && Hours(parse(t).value) == 12 && Minutes(parse(t).value) == 0
  {
    AtParts(today, 12, 0);
  }

  /** The first Lunch is already dated today: the list is returned as it is. */
  lemma KeepsTodaysLunch(s: seq<Todo>, i: nat, rec: Option<SkipRecord>, today: int, now: int, parse: Parser, iso: Iso)
    requires i < |s| && s[i].id == MealId && forall j :: 0 <= j < i ==> s[j].id != MealId
    requires s[i].time != "" && parse(s[i].time).Some? && DayOf(parse(s[i].time).value) == today
    ensures EnsureMeal(Arr(s), rec, today, now, parse, iso) == Success(s)
  {
    FindIdIs(s, MealId, i);
  }

  /**
   * The first Lunch is not dated today: only that element changes, and only
   * its time, which moves to today at the same hour and minute (12:00 when it
   * had no time). An unparseable time throws.
   */
  lemma MovesLunch(s: seq<Todo>, i: nat, rec: Option<SkipRecord>, today: int, now: int, parse: Parser, iso: Iso)
    requires i < |s| && s[i].id == MealId && forall j :: 0 <= j < i ==> s[j].id != MealId
    requires !IsSameDay(s[i].time, DateString(today), parse)
    ensures var r := EnsureMeal(Arr(s), rec, today, now, parse, iso);
      (r.Failure? <==> s[i].time != "" && parse(s[i].time).None?)
      && (r.Success? ==>
            |r.value| == |s|
            && (forall j :: 0 <= j < |s| && j != i ==> r.value[j] == s[j])
            && r.value[i].(time := s[i].time) == s[i]
            && r.value[i].time
               == if s[i].time == "" then iso(At(today, 12, 0))
                  else iso(At(today, Hours(parse(s[i].time).value), Minutes(parse(s[i].time).value))))
  {
    FindIdIs(s, MealId, i);
  }

  /** Every time `buildMealTime` produces lies on today. */
  lemma BuildMealTimeIsToday(baseTime: string, today: int, parse: Parser, iso: Iso)
    requires IsoRoundTrip(parse, iso)
    requires BuildMealTime(baseTime, today, parse, iso).Some?
    ensures IsSameDay(BuildMealTime(baseTime, today, parse, iso).value, DateString(today), parse)
  {
    if baseTime == "" {
      AtParts(today, 12, 0);
    } else {
      var b := parse(baseTime).value;
      AtParts(today, Hours(b), Minutes(b));
    }
  }

  /** A list whose first Lunch is dated today comes back unchanged, whatever the mark. */
  lemma SecondRunKeeps(s: seq<Todo>, i: nat, rec: Option<SkipRecord>, today: int, now: int, parse: Parser, iso: Iso)
    requires FindId(s, MealId) == Some(i)
    requires IsSameDay(s[i].time, DateString(today), parse)
    ensures EnsureMeal(Arr(s), rec, today, now, parse, iso) == Success(s)
  {
  }

  lemma AppendedThenKept(s: seq<Todo>, rec: Option<SkipRecord>, today: int, now: int, parse: Parser, iso: Iso)
    requires IsoRoundTrip(parse, iso)
    requires FindId(s, MealId).None?
    ensures var s' := s + [LunchTodo(TodayAt(12, 0, today, iso))];
      EnsureMeal(Arr(s'), rec, today, now, parse, iso) == Success(s')
  {
    var s' := s + [LunchTodo(TodayAt(12, 0, today, iso))];
    assert forall j :: 0 <= j < |s| ==> s'[j] == s[j];
    FindIdIs(s', MealId, |s|);
    AtParts(today, 12, 0);
    SecondRunKeeps(s', |s|, rec, today, now, parse, iso);
  }

  lemma MovedThenKept(s: seq<Todo>, i: nat, t: string, rec: Option<SkipRecord>, today: int, now: int,
                      parse: Parser, iso: Iso)
    requires IsoRoundTrip(parse, iso)
    requires FindId(s, MealId) == Some(i)
    requires BuildMealTime(s[i].time, today, parse, iso) == Some(t)
    ensures var s' := s[i := s[i].(time := t)];
      EnsureMeal(Arr(s'), rec, today, now, parse, iso) == Success(s')
  {
    var s' := s[i := s[i].(time := t)];
    FindIdIs(s', MealId, i);
    BuildMealTimeIsToday(s[i].time, today, parse, iso);
    SecondRunKeeps(s', i, rec, today, now, parse, iso);
  }

  /**
   * Running `ensureMealToday` again on its own result, with the same today and
   * now and the mark it left behind, changes nothing.
   */
  lemma EnsureMealIdempotent(todos: Stored<Todo>, rec: Option<SkipRecord>, today: int, now: int,
                             parse: Parser, iso: Iso, s': seq<Todo>)
    requires IsoRoundTrip(parse, iso)
    requires EnsureMeal(todos, rec, today, now, parse, iso) == Success(s')
    ensures EnsureMeal(Arr(s'), RecordAfter(rec, DateString(today), now), today, now, parse, iso) == Success(s')
  {
    var s := Safe(todos);
    var key := DateString(today);
    var rec' := RecordAfter(rec, key, now);
    RecordAfterIdempotent(rec, key, now);
    match FindId(s, MealId)
    case None =>
      if !SkipStillValid(rec, key, now) {
        AppendedThenKept(s, rec', today, now, parse, iso);
      }
    case Some(i) =>
      if !IsSameDay(s[i].time, key, parse) {
        MovedThenKept(s, i, BuildMealTime(s[i].time, today, parse, iso).value, rec', today, now, parse, iso);
      }
  }

  // ---------------------------------------------------------------- seed data

  /** The seed list of `getDummyTodos`, its Lunch at today 12:00. */
  function DummyBase(today: int, iso: Iso): seq<Todo>
  {
    [ Todo(1, "LLM海報", Some("hw"), Some(3), "", false, "", "", false, []),
      Todo(2, "計概期末報告", Some("hw"), Some(1), "2025-12-11", true, "", "2025-12-11", true, []),
      Todo(3, "作業系統", Some("quiz"), Some(2), "", false, "", "", false, []),
      Todo(4, "計概小考", Some("quiz"), Some(1), "", false, "", "", false, []),
      LunchTodo(TodayAt(12, 0, today, iso)) ]
  }

  /**
   * `getDummyTodos`: five todos with ids 1 to 5 in order, the last being
   * Lunch dated today; `ensureMealToday` leaves the seed as it is.
   */
  lemma DummyTodosSpec(rec: Option<SkipRecord>, today: int, now: int, parse: Parser, iso: Iso)
    requires IsoRoundTrip(parse, iso)
    ensures var r := EnsureMeal(Arr(DummyBase(today, iso)), rec, today, now, parse, iso);
      r == Success(DummyBase(today, iso))
      && |r.value| == 5 && (forall j :: 0 <= j < 5 ==> r.value[j].id == j + 1)
      && r.value[4].title == "Lunch" && IsSameDay(r.value[4].time, DateString(today), parse)
  {
    var s := DummyBase(today, iso);
    DummyShape(today, iso);
    LunchAtNoonToday(today, parse, iso);
    KeepsTodaysLunch(s, 4, rec, today, now, parse, iso);
  }

  lemma DummyShape(today: int, iso: Iso)
    ensures var s := DummyBase(today, iso);
      |s| == 5 && (forall j :: 0 <= j < 5 ==> s[j].id == j + 1)
      && s[4] == LunchTodo(TodayAt(12, 0, today, iso))
  {
  }

  /** The Lunch stamped at noon today reads back as a time on today. */
  lemma LunchAtNoonToday(today: int, parse: Parser, iso: Iso)
    requires IsoRoundTrip(parse, iso)
    ensures var time := TodayAt(12, 0, today, iso);
      time != "" && parse(time) == Some(At(today, 12, 0)) && DayOf(At(today, 12, 0)) == today
      && IsSameDay(time, DateString(today), parse)
  {
    AtParts(today, 12, 0);
  }

  // ---------------------------------------------------------------- the stored mark

  /** The storage key `skipLunchDate`, as the one piece of state this module writes. */
  class SkipStore {
    var record: Option<SkipRecord>

    constructor (rec: Option<SkipRecord>)
      ensures record == rec
    {
      record := rec;
    }

    /** `setSkipLunchDate(dateString)`: a new mark stamped with `now`. */
    method SetSkipLunchDate(dateString: string, now: int)
      modifies this
      ensures record == Some(SkipRecord(dateString, Some(now)))
    {
      record := Some(SkipRecord(dateString, Some(now)));
    }

    /**
     * `ensureMealToday(todos)`: clears the mark when it has expired and
     * returns the list with today's Lunch in place.
     */
    method EnsureMealToday(todos: Stored<Todo>, today: int, now: int, parse: Parser, iso: Iso)
      returns (r: Result<seq<Todo>>)
      modifies this
      ensures record == RecordAfter(old(record), DateString(today), now)
      ensures r == EnsureMeal(todos, old(record), today, now, parse, iso)
    {
      var safeTodos := Safe(todos);
      var todayKey := DateString(today);
      var skipDate: Option<string> := if record.Some? && record.value.date != "" then Some(record.value.date) else None;
      var skipTimestamp: Option<int> := if record.Some? then record.value.ts else None;

      if skipDate.Some? && skipDate.value != todayKey {
        record := None;
        skipDate := None;
        skipTimestamp := None;
      }
      if skipTimestamp.Some? && skipTimestamp.value != 0 && now - skipTimestamp.value > SkipExpiryMs {
        record := None;
        skipDate := None;
        skipTimestamp := None;
      }
      if skipDate == Some(todayKey) && skipTimestamp.None? {
        record := None;
        skipDate := None;
      }

      var mealIndex := FindId(safeTodos, MealId);
      if mealIndex.None? {
        var skipStillValid := skipDate == Some(todayKey) && skipTimestamp.Some? && now - skipTimestamp.value < SkipExpiryMs;
        if skipStillValid {
          return Success(safeTodos);
        }
        return Success(safeTodos + [LunchTodo(TodayAt(12, 0, today, iso))]);
      }

      var i := mealIndex.value;
      var meal := safeTodos[i];
      if IsSameDay(meal.time, todayKey, parse) {
        return Success(safeTodos);
      }
      var time := BuildMealTime(meal.time, today, parse, iso);
      if time.None? {
        return Failure("RangeError: Invalid time value");
      }
      var nextTodos := safeTodos[i := meal.(time := time.value)];
      return Success(nextTodos);
    }

    /** `getDummyTodos()`: the seed list through `ensureMealToday`. */
    method GetDummyTodos(today: int, now: int, parse: Parser, iso: Iso) returns (r: Result<seq<Todo>>)
      modifies this
      ensures record == RecordAfter(old(record), DateString(today), now)
      ensures r == EnsureMeal(Arr(DummyBase(today, iso)), old(record), today, now, parse, iso)
    {
      r := EnsureMealToday(Arr(DummyBase(today, iso)), today, now, parse, iso);
    }
  }
}
