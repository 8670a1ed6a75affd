/**
 * The day timeline of `src/pages/TimelinePage.jsx`: the todos of the selected
 * day, sorted by time, merged with three zero-width anchors (00:00, 07:00 and
 * 12:00) and swept once into gap, group and anchor segments; a second pass
 * drops redundant anchors.
 *
 * A day todo is a `Timed`: the stored todo paired with the instant `new
 * Date(todo.time)` denotes. Every todo occupies one hour on the timeline,
 * whatever its duration.
 */
module DayTimeline {
  import opened Wrappers
  import opened Text
  import opened Calendar
  import opened DateHelpers
  import opened Todos
  import opened Sorting

  function Max(a: int, b: int): int
  {
    if a < b then b else a
  }

  // ------------------------------------------------------------------ formatTime

  /** `formatTime(date)`: the local "HH:MM". */
  function FormatTime(t: int): (r: string)
    ensures |r| == 5 && r[2] == ':'
  {
    Pad2Digits(Hours(t));
    Pad2Digits(Minutes(t));
    Pad2(Hours(t)) + ":" + Pad2(Minutes(t))
  }

  /** Two instants print the same "HH:MM" exactly when they share their minute of the day. */
  lemma FormatTimeSameClock(a: int, b: int)
    ensures FormatTime(a) == FormatTime(b) <==> MinuteOfDay(a) == MinuteOfDay(b)
  {
    Pad2Digits(Hours(a));
    Pad2Digits(Hours(b));
    Pad2Digits(Minutes(a));
    Pad2Digits(Minutes(b));
    if FormatTime(a) == FormatTime(b) {
      assert FormatTime(a)[..2] == Pad2(Hours(a)) && FormatTime(b)[..2] == Pad2(Hours(b));
      assert FormatTime(a)[3..] == Pad2(Minutes(a)) && FormatTime(b)[3..] == Pad2(Minutes(b));
      Pad2Injective(Hours(a), Hours(b));
      Pad2Injective(Minutes(a), Minutes(b));
    }
  }

  // ------------------------------------------------------------------ dayTodos

  /** A todo of the selected day, with the instant its `time` denotes. */
  datatype Timed = Timed(todo: Todo, at: int)

  function TimedKey(e: Timed): int
  {
    e.at
  }

  /** The `dayTodos` filter: a non-empty `time` whose local date key is the selected day's key. */
  predicate OnDay(t: Todo, day: int, parse: Parser)
  {
    t.time != "" && parse(t.time).Some? && DayKey(DayOf(parse(t.time).value)) == DayKey(day)
  }

  /** The todos the filter keeps, in storage order. */
  function DayCandidates(todos: seq<Todo>, day: int, parse: Parser): seq<Timed>
  {
    if todos == [] then []
    else
      var rest := DayCandidates(todos[1..], day, parse);
      if OnDay(todos[0], day, parse) then [Timed(todos[0], parse(todos[0].time).value)] + rest else rest
  }

  /** The filter keeps exactly the todos of the day, each with the instant its time parses to. */
  lemma {:induction false} CandidatesSpec(todos: seq<Todo>, day: int, parse: Parser)
    ensures var r := DayCandidates(todos, day, parse);
      (forall e | e in r :: e.todo in todos && OnDay(e.todo, day, parse) && parse(e.todo.time) == Some(e.at))
      && (forall t | t in todos && OnDay(t, day, parse) :: Timed(t, parse(t.time).value) in r)
  {
    if todos != [] {
      CandidatesSpec(todos[1..], day, parse);
      assert forall t | t in todos :: t == todos[0] || t in todos[1..];
    }
  }

  /** `dayTodos`: the selected day's todos, stably sorted by time. */
  function DayTodos(todos: Stored<Todo>, day: int, parse: Parser): seq<Timed>
  {
    Sort(DayCandidates(Safe(todos), day, parse), TimedKey)
  }

  /**
   * `dayTodos` holds exactly the stored todos that pass the filter, in time
   * order, todos at the same instant in storage order; non-array storage has none.
   */
  lemma DayTodosSpec(todos: Stored<Todo>, day: int, parse: Parser)
    ensures Sorted(DayTodos(todos, day, parse), TimedKey)
    ensures forall e | e in DayTodos(todos, day, parse) ::
      e.todo in Safe(todos) && OnDay(e.todo, day, parse) && parse(e.todo.time) == Some(e.at)
    ensures forall t | t in Safe(todos) && OnDay(t, day, parse) ::
      Timed(t, parse(t.time).value) in DayTodos(todos, day, parse)
    ensures forall k :: WithKey(DayTodos(todos, day, parse), TimedKey, k)
                     == WithKey(DayCandidates(Safe(todos), day, parse), TimedKey, k)
    ensures todos.NonArray? ==> DayTodos(todos, day, parse) == []
  {
    var c := DayCandidates(Safe(todos), day, parse);
    var r := DayTodos(todos, day, parse);
    CandidatesSpec(Safe(todos), day, parse);
    SortSorted(c, TimedKey);
    forall e ensures e in r <==> e in c {
      assert e in r <==> e in multiset(r);
      assert e in c <==> e in multiset(c);
    }
    forall k ensures WithKey(r, TimedKey, k) == WithKey(c, TimedKey, k) {
      SortIsStable(c, TimedKey, k);
    }
  }

  // ------------------------------------------------------------------ allItems

  /** An entry of `allItems`: a day todo, or an anchor at a whole hour of the day. */
  datatype Item = TodoItem(entry: Timed) | AnchorItem(hour: int, time: int)

  function ItemKey(it: Item): int
  {
    if it.TodoItem? then it.entry.at else it.time
  }

  const AnchorHours: seq<int> := [0, 7, 12]

  /** The anchors of the selected day, at `setHours(hour, 0, 0, 0)`. */
  function Anchors(day: int): (r: seq<Item>)
    ensures |r| == |AnchorHours|
    ensures forall i :: 0 <= i < |r| ==> r[i] == AnchorItem(AnchorHours[i], At(day, AnchorHours[i], 0))
  {
    seq(|AnchorHours|, i requires 0 <= i < |AnchorHours| => AnchorItem(AnchorHours[i], At(day, AnchorHours[i], 0)))
  }

  function AsItems(ts: seq<Timed>): (r: seq<Item>)
    ensures |r| == |ts| && forall i :: 0 <= i < |r| ==> r[i] == TodoItem(ts[i])
  {
    seq(|ts|, i requires 0 <= i < |ts| => TodoItem(ts[i]))
  }

  /** `allItems`: day todos and anchors together, stably sorted by time. */
  function AllItems(dayTodos: seq<Timed>, day: int): seq<Item>
  {
    Sort(AsItems(dayTodos) + Anchors(day), ItemKey)
  }

  /** The day todos among `items`, in order. */
  function Entries(items: seq<Item>): seq<Timed>
  {
    if items == [] then []
    else (if items[0].TodoItem? then [items[0].entry] else []) + Entries(items[1..])
  }

  lemma {:induction false} EntriesSnoc(items: seq<Item>, it: Item)
    ensures Entries(items + [it]) == Entries(items) + (if it.TodoItem? then [it.entry] else [])
  {
    if items != [] {
      assert (items + [it])[1..] == items[1..] + [it];
      EntriesSnoc(items[1..], it);
    } else {
      assert [] + [it] == [it];
    }
  }

  lemma {:induction false} EntriesMergeAnchors(ts: seq<Timed>, anchors: seq<Item>)
    requires forall a | a in anchors :: a.AnchorItem?
    ensures Entries(Merge(AsItems(ts), anchors, ItemKey)) == ts
    decreases |ts| + |anchors|
  {
    var a := AsItems(ts);
    if ts == [] {
      if anchors != [] {
        assert anchors[0] in anchors;
        assert anchors == [anchors[0]] + anchors[1..];
        EntriesMergeAnchors(ts, anchors[1..]);
      }
    } else if anchors == [] {
      assert a[1..] == AsItems(ts[1..]);
      EntriesMergeAnchors(ts[1..], anchors);
    } else if ItemKey(a[0]) <= ItemKey(anchors[0]) {
      assert a[1..] == AsItems(ts[1..]);
      EntriesMergeAnchors(ts[1..], anchors);
    } else {
      assert anchors[0] in anchors;
      EntriesMergeAnchors(ts, anchors[1..]);
    }
  }

  lemma AnchorsSorted(day: int)
    ensures Sorted(Anchors(day), ItemKey)
  {
  }

  lemma AsItemsSorted(ts: seq<Timed>)
    requires Sorted(ts, TimedKey)
    ensures Sorted(AsItems(ts), ItemKey)
  {
  }

  /**
   * `allItems` is the merge of the sorted day todos with the anchors in which a
   * todo comes before an anchor at the same instant; it is sorted and holds
   * the day todos in their order.
   */
  lemma AllItemsSpec(dayTodos: seq<Timed>, day: int)
    requires Sorted(dayTodos, TimedKey)
    ensures AllItems(dayTodos, day) == Merge(AsItems(dayTodos), Anchors(day), ItemKey)
    ensures Sorted(AllItems(dayTodos, day), ItemKey)
    ensures Entries(AllItems(dayTodos, day)) == dayTodos
    ensures |AllItems(dayTodos, day)| == |dayTodos| + |AnchorHours|
  {
    AsItemsSorted(dayTodos);
    AnchorsSorted(day);
    SortAppend(AsItems(dayTodos), Anchors(day), ItemKey);
    SortOfSorted(Anchors(day), ItemKey);
    SortSorted(AsItems(dayTodos) + Anchors(day), ItemKey);
    EntriesMergeAnchors(dayTodos, Anchors(day));
  }

  // ------------------------------------------------------------------ segments

  datatype Segment =
    | Gap(start: int, end: int)
    | Group(start: int, end: int, todos: seq<Timed>)
    | Anchor(start: int, end: int)

  function SegTodos(seg: Segment): seq<Timed>
  {
    if seg.Group? then seg.todos else []
  }

  /** The todos of every group, in segment order. */
  function Flatten(segs: seq<Segment>): seq<Timed>
  {
    if segs == [] then [] else Flatten(segs[..|segs| - 1]) + SegTodos(segs[|segs| - 1])
  }

  ghost predicate StartsSorted(segs: seq<Segment>)
  {
    forall i, j :: 0 <= i < j < |segs| ==> segs[i].start <= segs[j].start
  }

  /** A todo's hour on the timeline. */
  const TodoMinutes: int := 60

  /** The latest end, start + 60, of a group's todos. */
  function MaxEnd(ts: seq<Timed>): int
    requires ts != []
  {
    if |ts| == 1 then ts[0].at + TodoMinutes
    else Max(MaxEnd(ts[..|ts| - 1]), ts[|ts| - 1].at + TodoMinutes)
  }

  /** The end of a group is the end of one of its todos and no todo ends later. */
  lemma {:induction false} MaxEndBounds(ts: seq<Timed>)
    requires ts != []
    ensures forall e | e in ts :: e.at + TodoMinutes <= MaxEnd(ts)
    ensures exists e | e in ts :: e.at + TodoMinutes == MaxEnd(ts)
  {
    if |ts| > 1 {
      var init := ts[..|ts| - 1];
      MaxEndBounds(init);
      assert ts == init + [ts[|ts| - 1]];
      var e :| e in init && e.at + TodoMinutes == MaxEnd(init);
      if MaxEnd(ts) != MaxEnd(init) {
        assert ts[|ts| - 1] in ts;
      } else {
        assert e in ts;
      }
    } else {
      assert ts[0] in ts;
    }
  }

  /** What every segment looks like: a non-empty interval, a zero-width anchor or a non-empty group. */
  predicate Shaped(seg: Segment)
  {
    match seg
    case Gap(s, e) => s < e
    case Anchor(s, e) => s == e
    case Group(s, e, ts) => ts != [] && s == ts[0].at && e == MaxEnd(ts)
  }

  // ------------------------------------------------------------------ sweep

  /** The sweep's state: the segments pushed so far and `lastEndTime` (`None` is `null`). */
  datatype Sweep = Sweep(segments: seq<Segment>, lastEnd: Option<int>)

  /** `endTime`: an anchor ends where it starts, a todo an hour later. */
  function EndOf(it: Item): int
  {
    if it.AnchorItem? then ItemKey(it) else ItemKey(it) + TodoMinutes
  }

  /** One `forEach` iteration of the sweep. */
  function Step(st: Sweep, it: Item): Sweep
  {
    var start := ItemKey(it);
    var end := EndOf(it);
    var segs := if st.lastEnd.Some? && start > st.lastEnd.value
      then st.segments + [Gap(st.lastEnd.value, start)] else st.segments;
    if st.lastEnd.Some? && start < st.lastEnd.value && it.TodoItem?
       && |segs| > 0 && segs[|segs| - 1].Group?
    then
      var g := segs[|segs| - 1];
      Sweep(segs[|segs| - 1 := Group(g.start, Max(g.end, end), g.todos + [it.entry])], st.lastEnd)
    else
      var seg := if it.AnchorItem? then Anchor(start, end) else Group(start, end, [it.entry]);
      Sweep(segs + [seg], Some(Max(st.lastEnd.GetOr(0), end)))
  }

  /** The sweep over `items`, from an empty segment list and a `null` end. */
  function SweepOf(items: seq<Item>): Sweep
  {
    if items == [] then Sweep([], None) else Step(SweepOf(items[..|items| - 1]), items[|items| - 1])
  }

  /** The `forEach` loop that builds `segments`. */
  method SweepItems(items: seq<Item>) returns (segments: seq<Segment>, lastEnd: Option<int>)
    ensures Sweep(segments, lastEnd) == SweepOf(items)
  {
    segments := [];
    lastEnd := None;
    for i := 0 to |items|
      invariant Sweep(segments, lastEnd) == SweepOf(items[..i])
    {
      var item := items[i];
      var startTime := ItemKey(item);
      var endTime := if item.AnchorItem? then startTime else startTime + TodoMinutes;
      if lastEnd.Some? && startTime > lastEnd.value {
        segments := segments + [Gap(lastEnd.value, startTime)];
      }
      var merged := false;
      if lastEnd.Some? && startTime < lastEnd.value && item.TodoItem? {
        if |segments| > 0 && segments[|segments| - 1].Group? {
          var last := segments[|segments| - 1];
          segments := segments[|segments| - 1 := Group(last.start, Max(last.end, endTime), last.todos + [item.entry])];
          merged := true;
        }
      }
      if !merged {
        var seg := if item.AnchorItem? then Anchor(startTime, endTime) else Group(startTime, endTime, [item.entry]);
        segments := segments + [seg];
        lastEnd := Some(Max(lastEnd.GetOr(0), endTime));
      }
      assert items[..i + 1][..i] == items[..i];
    }
    assert items[..|items|] == items;
  }

  lemma FlattenSnoc(segs: seq<Segment>, seg: Segment)
    ensures Flatten(segs + [seg]) == Flatten(segs) + SegTodos(seg)
  {
    assert (segs + [seg])[..|segs|] == segs;
  }

  lemma FlattenSetLast(segs: seq<Segment>, seg: Segment)
    requires segs != []
    ensures Flatten(segs[|segs| - 1 := seg]) == Flatten(segs[..|segs| - 1]) + SegTodos(seg)
  {
    assert segs[|segs| - 1 := seg][..|segs| - 1] == segs[..|segs| - 1];
  }

  /**
   * What holds of the sweep after it has seen `items`, when `items` come
   * sorted: the groups hold the day todos among `items` in order, each todo
   * once; every segment is `Shaped`; starts never decrease; `lastEndTime` is
   * set once an item was seen, and no segment starts after it or after the
   * last item.
   */
  ghost predicate SweepInv(items: seq<Item>, st: Sweep)
  {
    && Flatten(st.segments) == Entries(items)
    && (forall seg | seg in st.segments :: Shaped(seg))
    && StartsSorted(st.segments)
    && (items == [] <==> st.segments == [])
    && (st.lastEnd.Some? <==> items != [])
    && (items != [] ==> forall seg | seg in st.segments ::
          seg.start <= ItemKey(items[|items| - 1]) && seg.start <= st.lastEnd.value)
  }

  /** `it` may follow `items` in sorted order. */
  predicate NotBefore(items: seq<Item>, it: Item)
  {
    items == [] || ItemKey(items[|items| - 1]) <= ItemKey(it)
  }

  /** The segments after a todo is merged into the last group. */
  function Merged(segs: seq<Segment>, it: Item): seq<Segment>
    requires segs != [] && segs[|segs| - 1].Group? && it.TodoItem?
  {
    var g := segs[|segs| - 1];
    segs[|segs| - 1 := Group(g.start, Max(g.end, EndOf(it)), g.todos + [it.entry])]
  }

  lemma MergeIsStep(st: Sweep, it: Item)
    requires st.lastEnd.Some? && ItemKey(it) < st.lastEnd.value && it.TodoItem?
    requires st.segments != [] && st.segments[|st.segments| - 1].Group?
    ensures Step(st, it) == Sweep(Merged(st.segments, it), st.lastEnd)
  {
  }

  lemma MergedFacts(segs: seq<Segment>, it: Item)
    requires segs != [] && segs[|segs| - 1].Group? && it.TodoItem? && Shaped(segs[|segs| - 1])
    ensures var m := Merged(segs, it);
      && Flatten(m) == Flatten(segs) + [it.entry]
      && |m| == |segs| && m[..|segs| - 1] == segs[..|segs| - 1]
      && m[|segs| - 1].start == segs[|segs| - 1].start && Shaped(m[|segs| - 1])
  {
    var n := |segs|;
    var g := segs[n - 1];
    var g' := Group(g.start, Max(g.end, EndOf(it)), g.todos + [it.entry]);
    assert (g.todos + [it.entry])[..|g.todos|] == g.todos;
    assert Shaped(g');
    FlattenSetLast(segs, g');
    FlattenSnoc(segs[..n - 1], g);
    assert segs[..n - 1] + [g] == segs;
  }

  lemma MergePreserves(items: seq<Item>, st: Sweep, it: Item)
    requires SweepInv(items, st) && NotBefore(items, it)
    requires st.lastEnd.Some? && ItemKey(it) < st.lastEnd.value && it.TodoItem?
    requires st.segments != [] && st.segments[|st.segments| - 1].Group?
    ensures SweepInv(items + [it], Sweep(Merged(st.segments, it), st.lastEnd))
  {
    assert st.segments[|st.segments| - 1] in st.segments;
    MergedFacts(st.segments, it);
    EntriesSnoc(items, it);
    MergedBounded(items, st, it);
    var items' := items + [it];
    assert items'[|items'| - 1] == it;
  }

  lemma MergedBounded(items: seq<Item>, st: Sweep, it: Item)
    requires SweepInv(items, st) && NotBefore(items, it)
    requires st.lastEnd.Some? && ItemKey(it) < st.lastEnd.value && it.TodoItem?
    requires st.segments != [] && st.segments[|st.segments| - 1].Group?
    ensures var m := Merged(st.segments, it);
      StartsSorted(m)
      && forall seg | seg in m :: Shaped(seg) && seg.start <= ItemKey(it) && seg.start <= st.lastEnd.value
  {
    var segs := st.segments;
    var n := |segs|;
    assert segs[n - 1] in segs;
    MergedFacts(segs, it);
    var m := Merged(segs, it);
    forall k | 0 <= k < n ensures Shaped(m[k]) && m[k].start == segs[k].start {
      if k < n - 1 {
        assert m[k] == m[..n - 1][k] && segs[k] == segs[..n - 1][k];
      }
    }
    forall seg | seg in m ensures Shaped(seg) && seg.start <= ItemKey(it) && seg.start <= st.lastEnd.value {
      var k :| 0 <= k < n && m[k] == seg;
      assert segs[k] in segs;
    }
  }

  lemma StepMerge(items: seq<Item>, st: Sweep, it: Item)
    requires SweepInv(items, st) && NotBefore(items, it)
    requires st.lastEnd.Some? && ItemKey(it) < st.lastEnd.value && it.TodoItem?
    requires st.segments != [] && st.segments[|st.segments| - 1].Group?
    ensures SweepInv(items + [it], Step(st, it))
  {
    MergePreserves(items, st, it);
    MergeIsStep(st, it);
  }

  lemma SnocStartsSorted(segs: seq<Segment>, x: Segment)
    requires StartsSorted(segs) && forall y | y in segs :: y.start <= x.start
    ensures StartsSorted(segs + [x])
  {
    var r := segs + [x];
    forall i, j | 0 <= i < j < |r| ensures r[i].start <= r[j].start {
      assert r[i] == segs[i] && segs[i] in segs;
      if j < |segs| {
        assert r[j] == segs[j];
      }
    }
  }

  /** The segments one push step appends: perhaps a gap, then the item's own segment. */
  function Pushed(lastEnd: Option<int>, it: Item): seq<Segment>
  {
    var start := ItemKey(it);
    var end := EndOf(it);
    (if lastEnd.Some? && start > lastEnd.value then [Gap(lastEnd.value, start)] else [])
    + [if it.AnchorItem? then Anchor(start, end) else Group(start, end, [it.entry])]
  }

  /** Where the pushed segments start at the earliest: the gap's start, or the item's. */
  function PushBound(lastEnd: Option<int>, it: Item): int
  {
    if lastEnd.Some? && ItemKey(it) > lastEnd.value then lastEnd.value else ItemKey(it)
  }

  lemma PushIsStep(st: Sweep, it: Item)
    requires !(st.lastEnd.Some? && ItemKey(it) < st.lastEnd.value && it.TodoItem?
               && st.segments != [] && st.segments[|st.segments| - 1].Group?)
    ensures Step(st, it) == Sweep(st.segments + Pushed(st.lastEnd, it), Some(Max(st.lastEnd.GetOr(0), EndOf(it))))
  {
    var start := ItemKey(it);
    if st.lastEnd.Some? && start > st.lastEnd.value {
      var segs1 := st.segments + [Gap(st.lastEnd.value, start)];
      assert segs1[|segs1| - 1].Gap?;
      assert st.segments + Pushed(st.lastEnd, it) == segs1 + [Pushed(st.lastEnd, it)[1]];
    }
  }

  /** The todos a push step adds: the item's own entry when it is a todo. */
  lemma PushedFlatten(lastEnd: Option<int>, it: Item)
    ensures Flatten(Pushed(lastEnd, it)) == (if it.TodoItem? then [it.entry] else [])
  {
    var start := ItemKey(it);
    var seg := if it.AnchorItem? then Anchor(start, EndOf(it)) else Group(start, EndOf(it), [it.entry]);
    assert Flatten([seg]) == SegTodos(seg) by {
      assert [seg][..0] == [];
    }
    if lastEnd.Some? && start > lastEnd.value {
      var gap := Gap(lastEnd.value, start);
      assert Pushed(lastEnd, it) == [gap, seg];
      assert [gap, seg][..1] == [gap];
      assert [gap][..0] == [];
      assert Flatten([gap]) == [];
    } else {
      assert Pushed(lastEnd, it) == [seg];
    }
  }

  /** The segments a push step adds are well formed, in start order, and start between `PushBound` and the item. */
  lemma PushedFacts(lastEnd: Option<int>, it: Item)
    ensures forall x | x in Pushed(lastEnd, it) ::
      Shaped(x) && x.start <= ItemKey(it) && x.start <= Max(lastEnd.GetOr(0), EndOf(it))
    ensures StartsSorted(Pushed(lastEnd, it))
    ensures forall x | x in Pushed(lastEnd, it) :: PushBound(lastEnd, it) <= x.start
  {
    var start := ItemKey(it);
    var seg := if it.AnchorItem? then Anchor(start, EndOf(it)) else Group(start, EndOf(it), [it.entry]);
    assert Shaped(seg);
    if lastEnd.Some? && start > lastEnd.value {
      assert Pushed(lastEnd, it) == [Gap(lastEnd.value, start), seg];
    } else {
      assert Pushed(lastEnd, it) == [seg];
    }
  }

  lemma {:induction false} FlattenAppend(a: seq<Segment>, b: seq<Segment>)
    ensures Flatten(a + b) == Flatten(a) + Flatten(b)
    decreases |b|
  {
    if b == [] {
      assert a + b == a;
    } else {
      var b', x := b[..|b| - 1], b[|b| - 1];
      assert a + b == (a + b') + [x];
      assert b' + [x] == b;
      calc {
        Flatten(a + b);
        { FlattenSnoc(a + b', x); }
        Flatten(a + b') + SegTodos(x);
        { FlattenAppend(a, b'); }
        Flatten(a) + Flatten(b') + SegTodos(x);
        { FlattenSnoc(b', x); }
        Flatten(a) + Flatten(b);
      }
    }
  }

  lemma AppendStartsSorted(a: seq<Segment>, b: seq<Segment>, bound: int)
    requires StartsSorted(a) && StartsSorted(b)
    requires forall x | x in a :: x.start <= bound
    requires forall y | y in b :: bound <= y.start
    ensures StartsSorted(a + b)
  {
    var r := a + b;
    forall i, j | 0 <= i < j < |r| ensures r[i].start <= r[j].start {
      if j < |a| {
        assert r[i] == a[i] && r[j] == a[j];
      } else if i < |a| {
        assert r[i] == a[i] && a[i] in a && r[j] == b[j - |a|] && b[j - |a|] in b;
      } else {
        assert r[i] == b[i - |a|] && r[j] == b[j - |a|];
      }
    }
  }

  lemma PushPreserves(items: seq<Item>, st: Sweep, it: Item)
    requires SweepInv(items, st) && NotBefore(items, it)
    ensures SweepInv(items + [it], Sweep(st.segments + Pushed(st.lastEnd, it), Some(Max(st.lastEnd.GetOr(0), EndOf(it)))))
  {
    PushFlattens(items, st, it);
    PushSorted(items, st, it);
    PushBounded(items, st, it);
    var items' := items + [it];
    assert items'[|items'| - 1] == it;
  }

  lemma PushFlattens(items: seq<Item>, st: Sweep, it: Item)
    requires Flatten(st.segments) == Entries(items)
    ensures Flatten(st.segments + Pushed(st.lastEnd, it)) == Entries(items + [it])
  {
    PushedFlatten(st.lastEnd, it);
    FlattenAppend(st.segments, Pushed(st.lastEnd, it));
    EntriesSnoc(items, it);
  }

  lemma PushSorted(items: seq<Item>, st: Sweep, it: Item)
    requires SweepInv(items, st) && NotBefore(items, it)
    ensures StartsSorted(st.segments + Pushed(st.lastEnd, it))
  {
    PushedFacts(st.lastEnd, it);
    AppendStartsSorted(st.segments, Pushed(st.lastEnd, it), PushBound(st.lastEnd, it));
  }

  lemma PushBounded(items: seq<Item>, st: Sweep, it: Item)
    requires SweepInv(items, st) && NotBefore(items, it)
    ensures var last' := Max(st.lastEnd.GetOr(0), EndOf(it));
      forall x | x in st.segments + Pushed(st.lastEnd, it) :: Shaped(x) && x.start <= ItemKey(it) && x.start <= last'
  {
    var segs := st.segments;
    var p := Pushed(st.lastEnd, it);
    var last' := Max(st.lastEnd.GetOr(0), EndOf(it));
    PushedFacts(st.lastEnd, it);
    forall x | x in segs + p ensures Shaped(x) && x.start <= ItemKey(it) && x.start <= last' {
      if x in segs {
      } else {
        assert x in p;
      }
    }
  }

  lemma StepPush(items: seq<Item>, st: Sweep, it: Item)
    requires SweepInv(items, st) && NotBefore(items, it)
    requires !(st.lastEnd.Some? && ItemKey(it) < st.lastEnd.value && it.TodoItem?
               && st.segments != [] && st.segments[|st.segments| - 1].Group?)
    ensures SweepInv(items + [it], Step(st, it))
  {
    PushPreserves(items, st, it);
    PushIsStep(st, it);
  }

  lemma StepPreserves(items: seq<Item>, st: Sweep, it: Item)
    requires SweepInv(items, st) && NotBefore(items, it)
    ensures SweepInv(items + [it], Step(st, it))
  {
    if st.lastEnd.Some? && ItemKey(it) < st.lastEnd.value && it.TodoItem?
       && st.segments != [] && st.segments[|st.segments| - 1].Group? {
      StepMerge(items, st, it);
    } else {
      StepPush(items, st, it);
    }
  }

  /** The sweep over sorted items keeps `SweepInv` throughout. */
  lemma {:induction false} SweepInvariant(items: seq<Item>)
    requires Sorted(items, ItemKey)
    ensures SweepInv(items, SweepOf(items))
  {
    if items != [] {
      var init := items[..|items| - 1];
      assert init + [items[|items| - 1]] == items;
      assert Sorted(init, ItemKey);
      assert init != [] ==> ItemKey(items[|init| - 1]) <= ItemKey(items[|items| - 1]);
      SweepInvariant(init);
      StepPreserves(init, SweepOf(init), items[|items| - 1]);
    }
  }

  // ------------------------------------------------------------------ post-pass

  /** The segments the post-pass may drop: anchors and (never occurring) empty groups. */
  predicate Droppable(seg: Segment)
  {
    seg.Anchor? || (seg.Group? && seg.todos == [])
  }

  /** `seg` starts inside the non-empty group `last`. */
  predicate Covers(last: Segment, seg: Segment)
  {
    last.Group? && |last.todos| > 0 && seg.start < last.end
  }

  /**
   * One iteration of the post-pass: a droppable segment after some kept
   * segment is dropped when it shows the same clock time as the last kept one
   * or starts inside it while it is a non-empty group; all else is kept.
   */
  function Keep(fin: seq<Segment>, seg: Segment): (r: seq<Segment>)
    ensures r == if Droppable(seg) && fin != []
                    && (MinuteOfDay(seg.start) == MinuteOfDay(fin[|fin| - 1].start) || Covers(fin[|fin| - 1], seg))
                 then fin else fin + [seg]
  {
    if Droppable(seg) && fin != [] then
      var last := fin[|fin| - 1];
      FormatTimeSameClock(seg.start, last.start);
      if FormatTime(seg.start) == FormatTime(last.start) then fin
      else if last.Group? && |last.todos| > 0 && seg.start < last.end then fin
      else fin + [seg]
    else fin + [seg]
  }

  function PostPass(segs: seq<Segment>): seq<Segment>
  {
    if segs == [] then [] else Keep(PostPass(segs[..|segs| - 1]), segs[|segs| - 1])
  }

  /** The `forEach` loop that builds `finalSegments`. */
  method PostPassSegments(segments: seq<Segment>) returns (finalSegments: seq<Segment>)
    ensures finalSegments == PostPass(segments)
  {
    finalSegments := [];
    for i := 0 to |segments|
      invariant finalSegments == PostPass(segments[..i])
    {
      var seg := segments[i];
      var keep := true;
      if Droppable(seg) && |finalSegments| > 0 {
        var lastFinal := finalSegments[|finalSegments| - 1];
        if FormatTime(seg.start) == FormatTime(lastFinal.start) {
          keep := false;
        } else if lastFinal.Group? && |lastFinal.todos| > 0 && seg.start < lastFinal.end {
          keep := false;
        }
      }
      if keep {
        finalSegments := finalSegments + [seg];
      }
      PostPassPrefix(segments, i);
    }
    assert segments[..|segments|] == segments;
  }

  lemma PostPassPrefix(segs: seq<Segment>, i: nat)
    requires i < |segs|
    ensures PostPass(segs[..i + 1]) == Keep(PostPass(segs[..i]), segs[i])
  {
    assert segs[..i + 1][..i] == segs[..i];
  }

  /** The segments the post-pass never drops (gaps and non-empty groups), in order. */
  function Essentials(segs: seq<Segment>): seq<Segment>
  {
    if segs == [] then []
    else Essentials(segs[..|segs| - 1]) + (if Droppable(segs[|segs| - 1]) then [] else [segs[|segs| - 1]])
  }

  /** No droppable segment repeats its predecessor's clock time or starts inside it. */
  ghost predicate Sparse(r: seq<Segment>)
  {
    forall i | 0 < i < |r| && Droppable(r[i]) ::
      MinuteOfDay(r[i].start) != MinuteOfDay(r[i - 1].start) && !Covers(r[i - 1], r[i])
  }

  lemma {:induction false} FlattenNoGroups(segs: seq<Segment>)
    requires forall x | x in segs :: !x.Group?
    ensures Flatten(segs) == []
  {
    if segs != [] {
      var init := segs[..|segs| - 1];
      assert forall x | x in init :: x in segs;
      assert segs[|segs| - 1] in segs;
      FlattenNoGroups(init);
    }
  }

  /** The post-pass keeps some of its segments, in order, and the first one. */
  lemma {:induction false} PostPassSubset(segs: seq<Segment>)
    ensures forall x | x in PostPass(segs) :: x in segs
    ensures segs != [] ==> PostPass(segs) != [] && PostPass(segs)[0] == segs[0]
  {
    if segs != [] {
      var init := segs[..|segs| - 1];
      var x := segs[|segs| - 1];
      PostPassSubset(init);
      assert forall y | y in init :: y in segs;
      var r0 := PostPass(init);
      if init == [] {
        assert PostPass(segs) == [x];
      } else if PostPass(segs) != r0 {
        assert PostPass(segs) == r0 + [x];
        assert PostPass(segs)[0] == r0[0] == init[0] == segs[0];
      }
    }
  }

  /** Only anchors (and empty groups) are ever dropped. */
  lemma {:induction false} PostPassEssentials(segs: seq<Segment>)
    ensures Essentials(PostPass(segs)) == Essentials(segs)
    ensures Flatten(PostPass(segs)) == Flatten(segs)
  {
    if segs != [] {
      var init := segs[..|segs| - 1];
      var x := segs[|segs| - 1];
      PostPassEssentials(init);
      var r0 := PostPass(init);
      var r := PostPass(segs);
      FlattenSnoc(init, x);
      if r == r0 {
        assert Droppable(x) && SegTodos(x) == [];
        assert Flatten(init) + [] == Flatten(init);
        assert Essentials(init) + [] == Essentials(init);
      } else {
        assert r == r0 + [x] && r[..|r| - 1] == r0;
        FlattenSnoc(r0, x);
      }
    }
  }

  /** The post-pass keeps the start order. */
  lemma {:induction false} PostPassSorted(segs: seq<Segment>)
    requires StartsSorted(segs)
    ensures StartsSorted(PostPass(segs))
  {
    if segs != [] {
      var init := segs[..|segs| - 1];
      var x := segs[|segs| - 1];
      assert StartsSorted(init);
      PostPassSorted(init);
      PostPassSubset(init);
      var r0 := PostPass(init);
      forall y | y in r0 ensures y.start <= x.start {
        var k :| 0 <= k < |init| && init[k] == y;
        assert segs[k] == y;
      }
      if PostPass(segs) != r0 {
        SnocStartsSorted(r0, x);
      }
    }
  }

  /** No anchor the post-pass keeps is redundant next to the segment before it. */
  lemma {:induction false} PostPassSparse(segs: seq<Segment>)
    ensures Sparse(PostPass(segs))
  {
    if segs != [] {
      var init := segs[..|segs| - 1];
      var x := segs[|segs| - 1];
      PostPassSparse(init);
      var r0 := PostPass(init);
      var r := PostPass(segs);
      if r != r0 {
        assert r == r0 + [x];
        forall i | 0 < i < |r| && Droppable(r[i])
          ensures MinuteOfDay(r[i].start) != MinuteOfDay(r[i - 1].start) && !Covers(r[i - 1], r[i])
        {
          if i < |r0| {
            assert r[i] == r0[i] && r[i - 1] == r0[i - 1];
          } else {
            assert r[i - 1] == r0[|r0| - 1];
          }
        }
      }
    }
  }

  // ------------------------------------------------------------------ timelineSegments

  /** `timelineSegments` for the todos in storage and the selected day. */
  function Timeline(todos: Stored<Todo>, day: int, parse: Parser): seq<Segment>
  {
    var dayTodos := DayTodos(todos, day, parse);
    var all := AllItems(dayTodos, day);
    if |all| == |AnchorHours| && |dayTodos| == 0 then
      seq(|all|, i requires 0 <= i < |all| => Anchor(ItemKey(all[i]), ItemKey(all[i])))
    else
      PostPass(SweepOf(all).segments)
  }

  /** The page's computation of `timelineSegments`. */
  method TimelineSegments(todos: Stored<Todo>, day: int, parse: Parser) returns (segments: seq<Segment>)
    ensures segments == Timeline(todos, day, parse)
  {
    var dayTodos := DayTodos(todos, day, parse);
    var all := AllItems(dayTodos, day);
    if |all| == |AnchorHours| && |dayTodos| == 0 {
      segments := seq(|all|, i requires 0 <= i < |all| => Anchor(ItemKey(all[i]), ItemKey(all[i])));
      return;
    }
    var swept, lastEnd := SweepItems(all);
    segments := PostPassSegments(swept);
  }

  lemma AllItemsNoTodos(day: int)
    ensures AllItems([], day) == Anchors(day)
  {
    assert AsItems([]) + Anchors(day) == Anchors(day);
    AnchorsSorted(day);
    SortOfSorted(Anchors(day), ItemKey);
  }

  /** With no todos on the selected day the timeline is the three anchors, in order. */
  lemma TimelineEmptyDay(todos: Stored<Todo>, day: int, parse: Parser)
    requires DayTodos(todos, day, parse) == []
    ensures Timeline(todos, day, parse)
         == [Anchor(At(day, 0, 0), At(day, 0, 0)), Anchor(At(day, 7, 0), At(day, 7, 0)),
             Anchor(At(day, 12, 0), At(day, 12, 0))]
  {
    AllItemsNoTodos(day);
  }

  lemma BusyTimeline(dayTodos: seq<Timed>, day: int)
    requires dayTodos != [] && Sorted(dayTodos, TimedKey)
    ensures var r := PostPass(SweepOf(AllItems(dayTodos, day)).segments);
      Flatten(r) == dayTodos && (forall seg | seg in r :: Shaped(seg)) && StartsSorted(r) && Sparse(r)
  {
    var all := AllItems(dayTodos, day);
    AllItemsSpec(dayTodos, day);
    SweepInvariant(all);
    var segs := SweepOf(all).segments;
    PostPassEssentials(segs);
    PostPassSorted(segs);
    PostPassSparse(segs);
    PostPassSubset(segs);
  }

  lemma ThreeAnchors(day: int)
    ensures var r := [Anchor(At(day, 0, 0), At(day, 0, 0)), Anchor(At(day, 7, 0), At(day, 7, 0)),
                      Anchor(At(day, 12, 0), At(day, 12, 0))];
      Flatten(r) == [] && (forall seg | seg in r :: Shaped(seg)) && StartsSorted(r) && Sparse(r)
  {
    var r := [Anchor(At(day, 0, 0), At(day, 0, 0)), Anchor(At(day, 7, 0), At(day, 7, 0)),
              Anchor(At(day, 12, 0), At(day, 12, 0))];
    AtParts(day, 0, 0);
    AtParts(day, 7, 0);
    AtParts(day, 12, 0);
    FlattenNoGroups(r);
  }

  lemma EmptyTimelineSpec(todos: Stored<Todo>, day: int, parse: Parser)
    requires DayTodos(todos, day, parse) == []
    ensures var r := Timeline(todos, day, parse);
      Flatten(r) == [] && (forall seg | seg in r :: Shaped(seg)) && StartsSorted(r) && Sparse(r)
  {
    TimelineEmptyDay(todos, day, parse);
    ThreeAnchors(day);
  }

  /**
   * What the timeline promises: its groups hold exactly the day's todos in
   * time order, each once; every gap is a non-empty interval, every anchor
   * has zero width and every group is non-empty and ends at the latest
   * end of its todos; starts never decrease; no anchor is redundant.
   */
  lemma TimelineSpec(todos: Stored<Todo>, day: int, parse: Parser)
    ensures Flatten(Timeline(todos, day, parse)) == DayTodos(todos, day, parse)
    ensures forall seg | seg in Timeline(todos, day, parse) :: Shaped(seg)
    ensures StartsSorted(Timeline(todos, day, parse))
    ensures Sparse(Timeline(todos, day, parse))
  {
    var dayTodos := DayTodos(todos, day, parse);
    if dayTodos == [] {
      EmptyTimelineSpec(todos, day, parse);
    } else {
      DayTodosSpec(todos, day, parse);
      AllItemsSpec(dayTodos, day);
      assert Timeline(todos, day, parse) == PostPass(SweepOf(AllItems(dayTodos, day)).segments);
      BusyTimeline(dayTodos, day);
    }
  }
}
