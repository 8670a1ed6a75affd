/**
 * The to-do list of `src/pages/TodoPage.jsx`: the todos grouped by category
 * (the `reduce` into a dictionary), the three sections it shows, deletion by
 * id, and the "M/D HH:MM" texts of a todo's time and deadline.
 *
 * "Today" is a day index and `new Date(s)` is the parameter `parse`, as
 * elsewhere in the model.
 */
module TodoPage {
  import opened Wrappers
  import opened Text
  import opened Calendar
  import opened Todos
  import opened Lists
  import opened DayTimeline

  /** The section of todos without a real category. */
  const Uncategorized: string := "未分類"

  /** `categoryOrder`: the sections shown, in this order. */
  const SectionOrder: seq<string> := ["quiz", "hw", Uncategorized]

  // ---------------------------------------------------------------- grouping

  /** `categoryKey`: 'none', `null`, `undefined` and "" all go to 未分類. */
  function CategoryKey(c: Option<string>): (k: string)
    ensures k == Uncategorized <==> c.None? || c.value in {"", "none", Uncategorized}
    ensures k != Uncategorized ==> c == Some(k)
  {
    if c == Some("none") || !TruthyCategory(c) then Uncategorized else c.value
  }

  /** The todos of section `k`, in list order. */
  function Group(s: seq<Todo>, k: string): seq<Todo>
  {
    Filter(s, (t: Todo) => CategoryKey(t.category) == k)
  }

  /** The keys the accumulator starts with. */
  const InitialKeys: set<string> := {"quiz", "hw", Uncategorized}

  /** The section keys the todos of `s` bring. */
  function KeysOf(s: seq<Todo>): set<string>
  {
    set i | 0 <= i < |s| :: CategoryKey(s[i].category)
  }

  /** Grouping one more todo adds it at the end of its own section only. */
  lemma GroupSnoc(s: seq<Todo>, x: Todo, k: string)
    ensures Group(s + [x], k) == Group(s, k) + (if CategoryKey(x.category) == k then [x] else [])
  {
    var keep := (t: Todo) => CategoryKey(t.category) == k;
    FilterAppend(s, [x], keep);
    assert [x][1..] == [];
  }

  /** A key none of the todos brings has an empty section. */
  lemma GroupOfAbsentKey(s: seq<Todo>, k: string)
    requires k !in KeysOf(s)
    ensures Group(s, k) == []
  {
    forall i | 0 <= i < |s| ensures CategoryKey(s[i].category) != k {
      assert CategoryKey(s[i].category) in KeysOf(s);
    }
    FilterNone(s, (t: Todo) => CategoryKey(t.category) == k);
  }

  /** One more todo brings its own key and nothing else. */
  lemma KeysOfSnoc(s: seq<Todo>, x: Todo)
    ensures KeysOf(s + [x]) == KeysOf(s) + {CategoryKey(x.category)}
  {
    var t := s + [x];
    forall k | k in KeysOf(t) ensures k in KeysOf(s) + {CategoryKey(x.category)} {
      var j :| 0 <= j < |t| && CategoryKey(t[j].category) == k;
      if j < |s| {
        assert t[j] == s[j];
      }
    }
    forall k | k in KeysOf(s) ensures k in KeysOf(t) {
      var j :| 0 <= j < |s| && CategoryKey(s[j].category) == k;
      assert t[j] == s[j];
    }
    assert CategoryKey(t[|s|].category) in KeysOf(t);
  }

  /**
   * `groupedTodos`: the `reduce` that starts from empty quiz, hw and 未分類
   * lists, creates a list for any other key on first sight and pushes each
   * todo onto its key's list. A non-array `todos` groups nothing.
   */
  method GroupTodos(todos: Stored<Todo>) returns (groups: map<string, seq<Todo>>)
    ensures Grouped(groups, Safe(todos))
  {
    var s := Safe(todos);
    groups := map["quiz" := [], "hw" := [], Uncategorized := []];
    GroupedStart(groups);
    var i := 0;
    while i < |s|
      invariant 0 <= i <= |s|
      invariant Grouped(groups, s[..i])
    {
      ghost var before := groups;
      groups := PushByCategory(groups, s[i]);
      GroupedStep(before, groups, s, i);
      i := i + 1;
    }
    assert s[..|s|] == s;
  }

  /**
   * The `reduce` callback: create the todo's list if its key has none yet,
   * then push the todo onto it. Every other key keeps its list.
   */
  method PushByCategory(groups: map<string, seq<Todo>>, todo: Todo) returns (next: map<string, seq<Todo>>)
    ensures var key := CategoryKey(todo.category);
      next.Keys == groups.Keys + {key}
      && next[key] == (if key in groups then groups[key] else []) + [todo]
      && forall k :: k in groups && k != key ==> next[k] == groups[k]
  {
    next := groups;
    var key := CategoryKey(todo.category);
    if key !in next {
      next := next[key := []];
    }
    next := next[key := next[key] + [todo]];
  }

  lemma GroupedStart(groups: map<string, seq<Todo>>)
    requires groups == map["quiz" := [], "hw" := [], Uncategorized := []]
    ensures Grouped(groups, [])
  {
    assert KeysOf([]) == {};
  }

  /** The accumulator after the todos `s`: the initial keys and the todos' keys, each with its section. */
  ghost predicate Grouped(groups: map<string, seq<Todo>>, s: seq<Todo>)
  {
    groups.Keys == InitialKeys + KeysOf(s) && forall k :: k in groups ==> groups[k] == Group(s, k)
  }

  /** `GroupSnoc` on the prefixes of `s` the loop walks through. */
  lemma GroupPrefix(s: seq<Todo>, i: nat, k: string)
    requires i < |s|
    ensures Group(s[..i + 1], k) == Group(s[..i], k) + (if CategoryKey(s[i].category) == k then [s[i]] else [])
  {
    assert s[..i + 1] == s[..i] + [s[i]];
    GroupSnoc(s[..i], s[i], k);
  }

  /** `KeysOfSnoc` on the prefixes of `s` the loop walks through. */
  lemma KeysOfPrefix(s: seq<Todo>, i: nat)
    requires i < |s|
    ensures KeysOf(s[..i + 1]) == KeysOf(s[..i]) + {CategoryKey(s[i].category)}
  {
    assert s[..i + 1] == s[..i] + [s[i]];
    KeysOfSnoc(s[..i], s[i]);
  }

  /** The keys after the push step of `GroupedStep`. */
  lemma KeysStep(g0: set<string>, g1: set<string>, s: seq<Todo>, i: nat)
    requires i < |s| && g0 == InitialKeys + KeysOf(s[..i])
    requires g1 == g0 + {CategoryKey(s[i].category)}
    ensures g1 == InitialKeys + KeysOf(s[..i + 1])
  {
    KeysOfPrefix(s, i);
  }

  /** One key's list after the push step of `GroupedStep`. */
  lemma EntryStep(g0: map<string, seq<Todo>>, g1: map<string, seq<Todo>>, s: seq<Todo>, i: nat, k: string)
    requires i < |s| && k in g1
    requires k in g0 ==> g0[k] == Group(s[..i], k)
    requires k !in g0 ==> k !in KeysOf(s[..i])
    requires var key := CategoryKey(s[i].category);
      g1.Keys == g0.Keys + {key}
      && g1[key] == (if key in g0 then g0[key] else []) + [s[i]]
      && (k in g0 && k != key ==> g1[k] == g0[k])
    ensures g1[k] == Group(s[..i + 1], k)
  {
    GroupPrefix(s, i, k);
    if k == CategoryKey(s[i].category) {
      if k !in g0 {
        GroupOfAbsentKey(s[..i], k);
      }
    }
  }

  /**
   * Pushing the next todo of `s` onto its key's list (created empty if
   * missing) groups one todo more.
   */
  lemma GroupedStep(g0: map<string, seq<Todo>>, g1: map<string, seq<Todo>>, s: seq<Todo>, i: nat)
    requires i < |s| && Grouped(g0, s[..i])
    requires var key := CategoryKey(s[i].category);
      g1.Keys == g0.Keys + {key}
      && g1[key] == (if key in g0 then g0[key] else []) + [s[i]]
      && forall k :: k in g0 && k != key ==> g1[k] == g0[k]
    ensures Grouped(g1, s[..i + 1])
  {
    KeysStep(g0.Keys, g1.Keys, s, i);
    forall k | k in g1 ensures g1[k] == Group(s[..i + 1], k) {
      EntryStep(g0, g1, s, i, k);
    }
  }

  /** How many todos sit in the sections `ks`, one section after another. */
  function SumSizes(s: seq<Todo>, ks: seq<string>): nat
  {
    if ks == [] then 0 else |Group(s, ks[0])| + SumSizes(s, ks[1..])
  }

  /** How many times `k` occurs in `ks`. */
  function Hits(ks: seq<string>, k: string): nat
  {
    if ks == [] then 0 else (if ks[0] == k then 1 else 0) + Hits(ks[1..], k)
  }

  lemma {:induction false} HitsOnce(ks: seq<string>, k: string)
    requires NoDuplicates(ks)
    ensures Hits(ks, k) == if k in ks then 1 else 0
  {
    if ks != [] {
      assert NoDuplicates(ks[1..]);
      HitsOnce(ks[1..], k);
      if ks[0] == k {
        assert k !in ks[1..];
      }
    }
  }

  /** One todo more in front adds one to the section it belongs to. */
  lemma {:induction false} SumSizesCons(x: Todo, s: seq<Todo>, ks: seq<string>)
    ensures SumSizes([x] + s, ks) == Hits(ks, CategoryKey(x.category)) + SumSizes(s, ks)
  {
    if ks != [] {
      assert ([x] + s)[1..] == s;
      SumSizesCons(x, s, ks[1..]);
    }
  }

  /**
   * Every todo lands in exactly one section: over any list of distinct keys
   * covering the todos' keys (such as the keys of `groupedTodos`), the
   * sections' sizes add up to the number of todos.
   */
  lemma {:induction false} GroupSizesSum(s: seq<Todo>, ks: seq<string>)
    requires NoDuplicates(ks)
    requires forall i :: 0 <= i < |s| ==> CategoryKey(s[i].category) in ks
    ensures SumSizes(s, ks) == |s|
  {
    if s == [] {
      EmptySections(ks);
    } else {
      assert s == [s[0]] + s[1..];
      SumSizesCons(s[0], s[1..], ks);
      HitsOnce(ks, CategoryKey(s[0].category));
      GroupSizesSum(s[1..], ks);
    }
  }

  lemma {:induction false} EmptySections(ks: seq<string>)
    ensures SumSizes([], ks) == 0
  {
    if ks != [] {
      EmptySections(ks[1..]);
    }
  }

  // ---------------------------------------------------------------- the sections shown

  /** The position of a shown section in `categoryOrder`. */
  function Rank(k: string): int
  {
    if k == "quiz" then 0 else if k == "hw" then 1 else 2
  }

  /**
   * `categoryOrder.map(category => groupedTodos[category].length > 0 && ...)`:
   * the headings shown, quiz before hw before 未分類, each only when its
   * section is non-empty. A todo of any other category is in no section shown.
   */
  function Sections(s: seq<Todo>): (r: seq<string>)
    ensures forall k :: k in r <==> k in SectionOrder && Group(s, k) != []
    ensures forall i, j :: 0 <= i < j < |r| ==> Rank(r[i]) < Rank(r[j])
  {
    var q, h, u := Group(s, "quiz") != [], Group(s, "hw") != [], Group(s, Uncategorized) != [];
    PickedSections(q, h, u);
    Picked(q, h, u)
  }

  /** The headings kept when the quiz, hw and 未分類 sections are non-empty as `q`, `h` and `u` say. */
  function Picked(q: bool, h: bool, u: bool): seq<string>
  {
    (if q then ["quiz"] else []) + (if h then ["hw"] else []) + (if u then [Uncategorized] else [])
  }

  lemma PickedSections(q: bool, h: bool, u: bool)
    ensures forall k :: k in Picked(q, h, u) <==> (k == "quiz" && q) || (k == "hw" && h) || (k == Uncategorized && u)
    ensures forall k :: k in SectionOrder <==> k == "quiz" || k == "hw" || k == Uncategorized
    ensures forall i, j :: 0 <= i < j < |Picked(q, h, u)| ==> Rank(Picked(q, h, u)[i]) < Rank(Picked(q, h, u)[j])
  {
    assert |"quiz"| == 4 && |"hw"| == 2 && |Uncategorized| == 3;
    assert Rank("quiz") == 0 && Rank("hw") == 1 && Rank(Uncategorized) == 2;
  }

  /** A todo of the list is listed on the page exactly when its key is quiz, hw or 未分類. */
  lemma ShownIffKnownSection(s: seq<Todo>, t: Todo)
    requires t in s
    ensures (exists k :: k in Sections(s) && t in Group(s, k)) <==> CategoryKey(t.category) in SectionOrder
  {
    var k := CategoryKey(t.category);
    assert t in Group(s, k);
  }

  // ---------------------------------------------------------------- delete

  /** The test "has id `id`". */
  function HasId(id: int): Todo -> bool
  {
    (t: Todo) => t.id == id
  }

  /** The test `todo.id !== idToDelete`. */
  function LacksId(id: int): Todo -> bool
  {
    (t: Todo) => t.id != id
  }

  /** `handleDeleteTodo`: `filter(todo => todo.id !== idToDelete)`. */
  function DeleteTodo(s: seq<Todo>, id: int): seq<Todo>
  {
    Filter(s, LacksId(id))
  }

  /**
   * Deleting removes every todo with that id and nothing else: no todo with
   * the id is left, all others stay, as many go as had the id, a list without
   * the id comes back as it was, and deleting from two lists one after
   * another is deleting from each (so the order is kept).
   */
  lemma DeleteTodoSpec(s: seq<Todo>, u: seq<Todo>, id: int)
    ensures forall t | t in DeleteTodo(s, id) :: t.id != id
    ensures forall t | t in s && t.id != id :: t in DeleteTodo(s, id)
    ensures |DeleteTodo(s, id)| == |s| - Count(s, HasId(id))
    ensures DeleteTodo(s + u, id) == DeleteTodo(s, id) + DeleteTodo(u, id)
    ensures (forall t | t in s :: t.id != id) ==> DeleteTodo(s, id) == s
  {
    FilterAppend(s, u, LacksId(id));
    FilterSplit(s, HasId(id), LacksId(id));
    if forall t | t in s :: t.id != id {
      FilterAll(s, LacksId(id));
    }
  }

  // ---------------------------------------------------------------- time texts

  /** `${month}/${day}` of a date, month and day unpadded. */
  function MonthDay(c: CivilDate): string
  {
    IntToString(c.month) + "/" + IntToString(c.day)
  }

  /** `${month}/${day}` of a parsed date; "NaN/NaN" for an Invalid Date. */
  function MonthDayText(d: Option<int>): string
  {
    match d
    case None => "NaN/NaN"
    case Some(t) => MonthDay(CivilOf(DayOf(t)))
  }

  /** `${hours}:${minutes}` padded to two digits each; "NaN:NaN" for an Invalid Date. */
  function ClockText(d: Option<int>): string
  {
    match d
    case None => "NaN:NaN"
    case Some(t) => FormatTime(t)
  }

  /** "M/D 整日" for an all-day date, "M/D HH:MM" otherwise. */
  function DateTimeText(d: Option<int>, allDay: bool): string
  {
    MonthDayText(d) + " " + (if allDay then "整日" else ClockText(d))
  }

  /**
   * `formattedTime`: the Lunch todo (id 5) always shows today's date with its
   * own hour and minute ("00:00" without a time); any other todo shows its
   * time, or nothing when it has none.
   */
  function TimeText(t: Todo, today: int, parse: Parser): string
  {
    if t.id == 5 then
      MonthDayText(Some(At(today, 0, 0))) + " " + (if t.time == "" then "00:00" else ClockText(parse(t.time)))
    else if t.time != "" then DateTimeText(parse(t.time), t.allDay)
    else ""
  }

  /** `formattedDeadline`: the same format for the deadline, keyed by `deadlineAllDay`. */
  function DeadlineText(t: Todo, parse: Parser): string
  {
    if t.deadline != "" then DateTimeText(parse(t.deadline), t.deadlineAllDay) else ""
  }

  /**
   * Only a non-Lunch todo without a time shows no time; a time that parses
   * shows as that instant, "M/D 整日" or "M/D HH:MM" by `allDay`.
   */
  lemma TimeTextSpec(t: Todo, today: int, parse: Parser)
    ensures TimeText(t, today, parse) == "" <==> t.id != 5 && t.time == ""
    ensures t.id != 5 && t.time != "" && parse(t.time).Some? ==>
      TimeText(t, today, parse) == DateTimeText(Some(parse(t.time).value), t.allDay)
  {
    if t.id == 5 {
      assert TimeText(t, today, parse)[|MonthDayText(Some(At(today, 0, 0)))|] == ' ';
    } else if t.time != "" {
      assert TimeText(t, today, parse)[|MonthDayText(parse(t.time))|] == ' ';
    }
  }

  /**
   * Only a todo without a deadline shows no deadline; a deadline that parses
   * shows as that instant, "M/D 整日" or "M/D HH:MM" by `deadlineAllDay`.
   */
  lemma DeadlineTextSpec(t: Todo, parse: Parser)
    ensures DeadlineText(t, parse) == "" <==> t.deadline == ""
    ensures t.deadline != "" && parse(t.deadline).Some? ==>
      DeadlineText(t, parse) == DateTimeText(Some(parse(t.deadline).value), t.deadlineAllDay)
  {
    if t.deadline != "" {
      assert DeadlineText(t, parse)[|MonthDayText(parse(t.deadline))|] == ' ';
    }
  }

  /**
   * Two non-Lunch todos with valid times and the same `allDay` show the same
   * time text exactly when their dates share month and day and, unless all
   * day, the clock time.
   */
  lemma TimeTextReadsBack(t: Todo, u: Todo, today: int, parse: Parser)
    requires t.id != 5 && t.time != "" && parse(t.time).Some?
    requires u.id != 5 && u.time != "" && parse(u.time).Some?
    requires t.allDay == u.allDay
    ensures var a, b := parse(t.time).value, parse(u.time).value;
      var ca, cb := CivilOf(DayOf(a)), CivilOf(DayOf(b));
      TimeText(t, today, parse) == TimeText(u, today, parse)
      <==> ca.month == cb.month && ca.day == cb.day && (t.allDay || MinuteOfDay(a) == MinuteOfDay(b))
  {
    TimeTextSpec(t, today, parse);
    TimeTextSpec(u, today, parse);
    DateTimeTextReadsBack(parse(t.time).value, parse(u.time).value, t.allDay);
  }

  /**
   * The Lunch todo reads as if it were today at its stored hour and minute
   * (midnight without a time), whatever date it is stored with and whether or
   * not it is marked all day.
   */
  lemma LunchTimeText(t: Todo, today: int, parse: Parser)
    requires t.id == 5 && (t.time == "" || parse(t.time).Some?)
    ensures var at := if t.time == "" then At(today, 0, 0)
                      else At(today, Hours(parse(t.time).value), Minutes(parse(t.time).value));
      TimeText(t, today, parse) == DateTimeText(Some(at), false)
  {
    AtParts(today, 0, 0);
    if t.time == "" {
      assert FormatTime(At(today, 0, 0)) == "00:00" by {
        assert Pad2(0) == "00";
      }
    } else {
      var x := parse(t.time).value;
      AtParts(today, Hours(x), Minutes(x));
      FormatTimeSameClock(x, At(today, Hours(x), Minutes(x)));
    }
  }

  /** Two digit strings joined by `sep` split back into the same two parts. */
  lemma SplitAt(a: string, b: string, c: string, d: string, sep: char)
    requires AllDigits(a) && AllDigits(c) && !IsDigit(sep)
    requires a + [sep] + b == c + [sep] + d
    ensures a == c && b == d
  {
    var x := a + [sep] + b;
    assert forall i :: 0 <= i < |a| ==> x[i] != sep;
    assert forall i :: 0 <= i < |c| ==> x[i] == c[i] != sep;
    assert x[|a|] == sep;
    assert x == c + [sep] + d && x[|c|] == sep;
    assert |a| == |c|;
    assert a == x[..|a|] == c;
    assert b == x[|a| + 1..] == d;
  }

  /** "M/D rest" determines the month, the day and the rest. */
  lemma MonthDayReadsBack(c1: CivilDate, c2: CivilDate, r1: string, r2: string)
    requires ValidCivil(c1) && ValidCivil(c2)
    requires MonthDay(c1) + " " + r1 == MonthDay(c2) + " " + r2
    ensures c1.month == c2.month && c1.day == c2.day && r1 == r2
  {
    var m1, m2 := IntToString(c1.month), IntToString(c2.month);
    var d1, d2 := IntToString(c1.day), IntToString(c2.day);
    assert MonthDay(c1) + " " + r1 == m1 + ['/'] + (d1 + [' '] + r1);
    assert MonthDay(c2) + " " + r2 == m2 + ['/'] + (d2 + [' '] + r2);
    SplitAt(m1, d1 + [' '] + r1, m2, d2 + [' '] + r2, '/');
    SplitAt(d1, r1, d2, r2, ' ');
    IntToStringInjective(c1.month, c2.month);
    IntToStringInjective(c1.day, c2.day);
  }

  /**
   * The text of a valid date reads back: two timed texts are equal exactly
   * when the dates share month, day and minute of the day, two all-day texts
   * exactly when they share month and day. The year is not shown.
   */
  lemma DateTimeTextReadsBack(a: int, b: int, allDay: bool)
    ensures var ca, cb := CivilOf(DayOf(a)), CivilOf(DayOf(b));
      DateTimeText(Some(a), allDay) == DateTimeText(Some(b), allDay)
      <==> ca.month == cb.month && ca.day == cb.day && (allDay || MinuteOfDay(a) == MinuteOfDay(b))
  {
    var ca, cb := CivilOf(DayOf(a)), CivilOf(DayOf(b));
    var ra := if allDay then "整日" else FormatTime(a);
    var rb := if allDay then "整日" else FormatTime(b);
    assert DateTimeText(Some(a), allDay) == MonthDay(ca) + " " + ra;
    assert DateTimeText(Some(b), allDay) == MonthDay(cb) + " " + rb;
    if MonthDay(ca) + " " + ra == MonthDay(cb) + " " + rb {
      MonthDayReadsBack(ca, cb, ra, rb);
    }
    FormatTimeSameClock(a, b);
  }
}
