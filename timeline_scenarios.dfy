/**
 * Whole timelines for small days, worked out from the model of
 * `src/pages/TimelinePage.jsx`. They show the behaviours that follow from
 * the code rather than from how a timeline might be expected to look: the
 * stable tie order of todos before anchors, the fixed hour per todo, a merge
 * that leaves `lastEndTime` behind, and an anchor that splits overlapping
 * todos into two groups.
 *
 * The days are from 1970-01-02 on. `lastEndTime || 0` takes effect on the
 * first push; the model reads that 0 as local midnight of 1970-01-01, the
 * code as the UTC epoch, which lies within 14 hours of it. From the second
 * day on, the first item of a day starts later than both, so the two agree.
 */
module TimelineScenarios {
  import opened Wrappers
  import opened Calendar
  import opened Todos
  import opened Sorting
  import opened DayTimeline

  lemma SweepOfSnoc(items: seq<Item>, it: Item)
    ensures SweepOf(items + [it]) == Step(SweepOf(items), it)
  {
    assert (items + [it])[..|items|] == items;
  }

  lemma PostPassSnoc(segs: seq<Segment>, x: Segment)
    ensures PostPass(segs + [x]) == Keep(PostPass(segs), x)
  {
    assert (segs + [x])[..|segs|] == segs;
  }

  /** `seg`, right after `last`, survives the post-pass. */
  predicate Appends(last: Segment, seg: Segment)
  {
    !Droppable(seg) || (MinuteOfDay(seg.start) != MinuteOfDay(last.start) && !Covers(last, seg))
  }

  lemma KeepAppends(fin: seq<Segment>, seg: Segment)
    requires fin == [] || Appends(fin[|fin| - 1], seg)
    ensures Keep(fin, seg) == fin + [seg]
  {
  }

  /** The post-pass keeps every segment when each one survives after its neighbour. */
  lemma {:induction false} KeepChain(segs: seq<Segment>)
    requires forall k | 0 < k < |segs| :: Appends(segs[k - 1], segs[k])
    ensures PostPass(segs) == segs
  {
    if segs != [] {
      var n := |segs| - 1;
      var pre := segs[..n];
      assert forall k | 0 <= k < |pre| :: pre[k] == segs[k];
      KeepChain(pre);
      assert n > 0 ==> pre[n - 1] == segs[n - 1];
      KeepAppends(pre, segs[n]);
      assert pre + [segs[n]] == segs;
    }
  }

  /** A segment that survives after what the post-pass kept so far is appended to it. */
  lemma PostPassKeeps(segs: seq<Segment>, fin: seq<Segment>, x: Segment)
    requires PostPass(segs) == fin
    requires fin == [] || Appends(fin[|fin| - 1], x)
    ensures PostPass(segs + [x]) == fin + [x]
  {
    PostPassSnoc(segs, x);
    KeepAppends(fin, x);
  }

  /** A todo whose time parses to `h:m` on `day` is a todo of that day. */
  lemma OnDayAt(t: Todo, day: int, h: int, m: int, parse: Parser)
    requires 0 <= h < 24 && 0 <= m < 60
    requires t.time != "" && parse(t.time) == Some(At(day, h, m))
    ensures OnDay(t, day, parse)
  {
    AtParts(day, h, m);
  }

  lemma OnDayOf(t: Todo, day: int, i: int, parse: Parser)
    requires t.time != "" && parse(t.time) == Some(i) && DayOf(i) == day
    ensures OnDay(t, day, parse)
  {
  }

  lemma AnchorsOf(day: int)
    ensures Anchors(day) == [AnchorItem(0, At(day, 0, 0)), AnchorItem(7, At(day, 7, 0)), AnchorItem(12, At(day, 12, 0))]
  {
  }

  lemma SingleDayTodo(t: Todo, day: int, h: int, m: int, parse: Parser)
    requires 0 <= h < 24 && 0 <= m < 60
    requires t.time != "" && parse(t.time) == Some(At(day, h, m))
    ensures DayTodos(Arr([t]), day, parse) == [Timed(t, At(day, h, m))]
  {
    OnDayAt(t, day, h, m, parse);
    assert [t][1..] == [];
    assert DayCandidates([t], day, parse) == [Timed(t, At(day, h, m))];
  }

  /** A todo at 12:00 goes after the 00:00 and 07:00 anchors and before the 12:00 one. */
  lemma InsertNoon(e: Timed, day: int)
    requires e.at == At(day, 12, 0)
    ensures Insert(TodoItem(e), [AnchorItem(0, At(day, 0, 0)), AnchorItem(7, At(day, 7, 0)), AnchorItem(12, At(day, 12, 0))], ItemKey)
         == [AnchorItem(0, At(day, 0, 0)), AnchorItem(7, At(day, 7, 0)), TodoItem(e), AnchorItem(12, At(day, 12, 0))]
  {
    var a0, a7, a12 := AnchorItem(0, At(day, 0, 0)), AnchorItem(7, At(day, 7, 0)), AnchorItem(12, At(day, 12, 0));
    var te := TodoItem(e);
    var t12, t7, t0 := [a12], [a7, a12], [a0, a7, a12];
    assert t0[1..] == t7 && t7[1..] == t12;
    InsertHere(te, t12, ItemKey);
    InsertPast(te, t7, ItemKey);
    InsertPast(te, t0, ItemKey);
  }

  /** With one day todo, `allItems` is that todo inserted among the anchors. */
  lemma OneTodoItems(e: Timed, day: int)
    ensures AllItems([e], day) == Insert(TodoItem(e), Anchors(day), ItemKey)
  {
    AnchorsSorted(day);
    SortOfSorted(Anchors(day), ItemKey);
    assert AsItems([e]) + Anchors(day) == [TodoItem(e)] + Anchors(day);
    assert ([TodoItem(e)] + Anchors(day))[1..] == Anchors(day);
  }

  lemma NoonSweep(e: Timed, day: int)
    requires day >= 1 && e.at == At(day, 12, 0)
    ensures var d0, d7, d12 := At(day, 0, 0), At(day, 7, 0), At(day, 12, 0);
      SweepOf([AnchorItem(0, d0), AnchorItem(7, d7), TodoItem(e), AnchorItem(12, d12)]).segments
      == [Anchor(d0, d0), Gap(d0, d7), Anchor(d7, d7), Gap(d7, d12), Group(d12, d12 + 60, [e]), Anchor(d12, d12)]
  {
    var d0, d7, d12 := At(day, 0, 0), At(day, 7, 0), At(day, 12, 0);
    var a0, a7, te, a12 := AnchorItem(0, d0), AnchorItem(7, d7), TodoItem(e), AnchorItem(12, d12);
    var s1 := Sweep([Anchor(d0, d0)], Some(d0));
    var s2 := Sweep(s1.segments + [Gap(d0, d7), Anchor(d7, d7)], Some(d7));
    var s3 := Sweep(s2.segments + [Gap(d7, d12), Group(d12, d12 + 60, [e])], Some(d12 + 60));
    SweepOfSnoc([], a0);
    assert [] + [a0] == [a0];
    assert SweepOf([a0]) == s1;
    SweepOfSnoc([a0], a7);
    assert [a0] + [a7] == [a0, a7];
    assert SweepOf([a0, a7]) == s2;
    SweepOfSnoc([a0, a7], te);
    assert [a0, a7] + [te] == [a0, a7, te];
    assert SweepOf([a0, a7, te]) == s3;
    SweepOfSnoc([a0, a7, te], a12);
    assert [a0, a7, te] + [a12] == [a0, a7, te, a12];
    assert Step(s3, a12).segments == s3.segments + [Anchor(d12, d12)];
  }

  lemma NoonPostPass(e: Timed, day: int)
    requires e.at == At(day, 12, 0)
    ensures var d0, d7, d12 := At(day, 0, 0), At(day, 7, 0), At(day, 12, 0);
      PostPass([Anchor(d0, d0), Gap(d0, d7), Anchor(d7, d7), Gap(d7, d12), Group(d12, d12 + 60, [e]), Anchor(d12, d12)])
      == [Anchor(d0, d0), Gap(d0, d7), Anchor(d7, d7), Gap(d7, d12), Group(d12, d12 + 60, [e])]
  {
    var d0, d7, d12 := At(day, 0, 0), At(day, 7, 0), At(day, 12, 0);
    AtParts(day, 0, 0);
    AtParts(day, 7, 0);
    AtParts(day, 12, 0);
    var kept := [Anchor(d0, d0), Gap(d0, d7), Anchor(d7, d7), Gap(d7, d12), Group(d12, d12 + 60, [e])];
    KeepChain(kept);
    PostPassSnoc(kept, Anchor(d12, d12));
    assert kept + [Anchor(d12, d12)]
        == [Anchor(d0, d0), Gap(d0, d7), Anchor(d7, d7), Gap(d7, d12), Group(d12, d12 + 60, [e]), Anchor(d12, d12)];
  }

  /**
   * One todo at exactly 12:00: the stable sort puts it before the 12:00
   * anchor, so the day shows a 12:00 group and no 12:00 anchor.
   */
  lemma NoonTodo(t: Todo, day: int, parse: Parser)
    requires day >= 1
    requires t.time != "" && parse(t.time) == Some(At(day, 12, 0))
    ensures var d0, d7, d12 := At(day, 0, 0), At(day, 7, 0), At(day, 12, 0);
      Timeline(Arr([t]), day, parse)
      == [Anchor(d0, d0), Gap(d0, d7), Anchor(d7, d7), Gap(d7, d12), Group(d12, d12 + 60, [Timed(t, d12)])]
  {
    var e := Timed(t, At(day, 12, 0));
    SingleDayTodo(t, day, 12, 0, parse);
    OneTodoItems(e, day);
    AnchorsOf(day);
    InsertNoon(e, day);
    NoonSweep(e, day);
    NoonPostPass(e, day);
  }

  /** Todos of the day stored in time order come out of `dayTodos` in storage order. */
  lemma AllOnDaySorted(todos: seq<Todo>, ats: seq<int>, day: int, parse: Parser)
    requires |ats| == |todos|
    requires forall k :: 0 <= k < |todos| ==>
      todos[k].time != "" && parse(todos[k].time) == Some(ats[k]) && DayOf(ats[k]) == day
    requires forall i, j :: 0 <= i < j < |ats| ==> ats[i] <= ats[j]
    ensures |DayTodos(Arr(todos), day, parse)| == |todos|
    ensures forall k :: 0 <= k < |todos| ==> DayTodos(Arr(todos), day, parse)[k] == Timed(todos[k], ats[k])
  {
    AllOnDay(todos, ats, day, parse);
    SortedCandidates(todos, day, parse);
  }

  /** Two todos of the day, the first not later than the second, are `dayTodos` in storage order. */
  lemma TwoDayTodos(t1: Todo, t2: Todo, day: int, i1: int, i2: int, parse: Parser)
    requires t1.time != "" && parse(t1.time) == Some(i1) && DayOf(i1) == day
    requires t2.time != "" && parse(t2.time) == Some(i2) && DayOf(i2) == day
    requires i1 <= i2
    ensures DayTodos(Arr([t1, t2]), day, parse) == [Timed(t1, i1), Timed(t2, i2)]
  {
    AllOnDaySorted([t1, t2], [i1, i2], day, parse);
  }

  /** A todo of the day heads the candidates of the list it heads. */
  lemma CandidatesHead(todos: seq<Todo>, day: int, parse: Parser)
    requires todos != [] && OnDay(todos[0], day, parse)
    ensures DayCandidates(todos, day, parse)
         == [Timed(todos[0], parse(todos[0].time).value)] + DayCandidates(todos[1..], day, parse)
  {
  }

  /** When every todo lies on the day, the filter keeps them all, with their instants. */
  lemma {:induction false} AllOnDay(todos: seq<Todo>, ats: seq<int>, day: int, parse: Parser)
    requires |ats| == |todos|
    requires forall k :: 0 <= k < |todos| ==>
      todos[k].time != "" && parse(todos[k].time) == Some(ats[k]) && DayOf(ats[k]) == day
    ensures |DayCandidates(todos, day, parse)| == |todos|
    ensures forall k :: 0 <= k < |todos| ==> DayCandidates(todos, day, parse)[k] == Timed(todos[k], ats[k])
  {
    if todos != [] {
      var tail, tats := todos[1..], ats[1..];
      assert forall k :: 0 <= k < |tail| ==> tail[k] == todos[k + 1] && tats[k] == ats[k + 1];
      AllOnDay(tail, tats, day, parse);
      OnDayOf(todos[0], day, ats[0], parse);
      CandidatesHead(todos, day, parse);
    }
  }

  /** When the filtered todos already come in time order, the sort leaves them as they are. */
  lemma SortedCandidates(todos: seq<Todo>, day: int, parse: Parser)
    requires Sorted(DayCandidates(todos, day, parse), TimedKey)
    ensures DayTodos(Arr(todos), day, parse) == DayCandidates(todos, day, parse)
  {
    SortOfSorted(DayCandidates(todos, day, parse), TimedKey);
  }

  lemma ThreeDayTodos(t1: Todo, t2: Todo, t3: Todo, day: int, i1: int, i2: int, i3: int, parse: Parser)
    requires t1.time != "" && parse(t1.time) == Some(i1) && DayOf(i1) == day
    requires t2.time != "" && parse(t2.time) == Some(i2) && DayOf(i2) == day
    requires t3.time != "" && parse(t3.time) == Some(i3) && DayOf(i3) == day
    requires i1 <= i2 <= i3
    ensures DayTodos(Arr([t1, t2, t3]), day, parse) == [Timed(t1, i1), Timed(t2, i2), Timed(t3, i3)]
  {
    AllOnDaySorted([t1, t2, t3], [i1, i2, i3], day, parse);
  }

  // ---------------------------------------------------------------- two todos at 10:00

  lemma SameInstantMerge(e1: Timed, e2: Timed, day: int)
    requires e1.at == e2.at == At(day, 10, 0)
    ensures Merge([TodoItem(e1), TodoItem(e2)], Anchors(day), ItemKey)
         == [AnchorItem(0, At(day, 0, 0)), AnchorItem(7, At(day, 7, 0)), TodoItem(e1), TodoItem(e2),
             AnchorItem(12, At(day, 12, 0))]
  {
    AnchorsOf(day);
    var a0, a7, a12 := AnchorItem(0, At(day, 0, 0)), AnchorItem(7, At(day, 7, 0)), AnchorItem(12, At(day, 12, 0));
    var t1, t2 := TodoItem(e1), TodoItem(e2);
    var ts, us := [t1, t2], [t2];
    var as0, as7, as12 := [a0, a7, a12], [a7, a12], [a12];
    assert ts[1..] == us && us[1..] == [];
    assert as0[1..] == as7 && as7[1..] == as12 && as12[1..] == [];
    MergeTakeRight(ts, as0, ItemKey);
    MergeTakeRight(ts, as7, ItemKey);
    MergeTakeLeft(ts, as12, ItemKey);
    MergeTakeLeft(us, as12, ItemKey);
  }

  lemma SameInstantSweep(e1: Timed, e2: Timed, day: int)
    requires day >= 1 && e1.at == e2.at == At(day, 10, 0)
    ensures var d0, d7, d10, d12 := At(day, 0, 0), At(day, 7, 0), At(day, 10, 0), At(day, 12, 0);
      SweepOf([AnchorItem(0, d0), AnchorItem(7, d7), TodoItem(e1), TodoItem(e2), AnchorItem(12, d12)]).segments
      == [Anchor(d0, d0), Gap(d0, d7), Anchor(d7, d7), Gap(d7, d10), Group(d10, d10 + 60, [e1, e2]),
          Gap(d10 + 60, d12), Anchor(d12, d12)]
  {
    var d0, d7, d10, d12 := At(day, 0, 0), At(day, 7, 0), At(day, 10, 0), At(day, 12, 0);
    var a0, a7, t1, t2, a12 := AnchorItem(0, d0), AnchorItem(7, d7), TodoItem(e1), TodoItem(e2), AnchorItem(12, d12);
    var s1 := Sweep([Anchor(d0, d0)], Some(d0));
    var s2 := Sweep(s1.segments + [Gap(d0, d7), Anchor(d7, d7)], Some(d7));
    var s3 := Sweep(s2.segments + [Gap(d7, d10), Group(d10, d10 + 60, [e1])], Some(d10 + 60));
    var s4 := Sweep(s3.segments[|s3.segments| - 1 := Group(d10, d10 + 60, [e1, e2])], Some(d10 + 60));
    SweepOfSnoc([], a0);
    assert [] + [a0] == [a0];
    assert SweepOf([a0]) == s1;
    SweepOfSnoc([a0], a7);
    assert [a0] + [a7] == [a0, a7];
    assert SweepOf([a0, a7]) == s2;
    SweepOfSnoc([a0, a7], t1);
    assert [a0, a7] + [t1] == [a0, a7, t1];
    assert SweepOf([a0, a7, t1]) == s3;
    SweepOfSnoc([a0, a7, t1], t2);
    assert [a0, a7, t1] + [t2] == [a0, a7, t1, t2];
    assert [e1] + [e2] == [e1, e2];
    assert SweepOf([a0, a7, t1, t2]) == s4;
    SweepOfSnoc([a0, a7, t1, t2], a12);
    assert [a0, a7, t1, t2] + [a12] == [a0, a7, t1, t2, a12];
  }

  lemma SameInstantPostPass(e1: Timed, e2: Timed, day: int)
    ensures var d0, d7, d10, d12 := At(day, 0, 0), At(day, 7, 0), At(day, 10, 0), At(day, 12, 0);
      var segs := [Anchor(d0, d0), Gap(d0, d7), Anchor(d7, d7), Gap(d7, d10), Group(d10, d10 + 60, [e1, e2]),
                   Gap(d10 + 60, d12), Anchor(d12, d12)];
      PostPass(segs) == segs
  {
    var d0, d7, d10, d12 := At(day, 0, 0), At(day, 7, 0), At(day, 10, 0), At(day, 12, 0);
    AtParts(day, 0, 0);
    AtParts(day, 7, 0);
    AtParts(day, 11, 0);
    AtParts(day, 12, 0);
    var segs := [Anchor(d0, d0), Gap(d0, d7), Anchor(d7, d7), Gap(d7, d10), Group(d10, d10 + 60, [e1, e2]),
                 Gap(d10 + 60, d12), Anchor(d12, d12)];
    KeepChain(segs);
  }

  lemma TwoTodoItems(e1: Timed, e2: Timed, day: int)
    requires e1.at <= e2.at
    ensures AllItems([e1, e2], day) == Merge([TodoItem(e1), TodoItem(e2)], Anchors(day), ItemKey)
  {
    AllItemsSpec([e1, e2], day);
    assert AsItems([e1, e2]) == [TodoItem(e1), TodoItem(e2)];
  }

  lemma ThreeTodoItems(e1: Timed, e2: Timed, e3: Timed, day: int)
    requires e1.at <= e2.at <= e3.at
    ensures AllItems([e1, e2, e3], day) == Merge([TodoItem(e1), TodoItem(e2), TodoItem(e3)], Anchors(day), ItemKey)
  {
    AllItemsSpec([e1, e2, e3], day);
    assert AsItems([e1, e2, e3]) == [TodoItem(e1), TodoItem(e2), TodoItem(e3)];
  }

  /**
   * Two todos at 10:00 share one group, in storage order, that ends at 11:00
   * however long they are; a gap runs from 11:00 to the noon anchor.
   */
  lemma SameInstantTodos(t1: Todo, t2: Todo, day: int, parse: Parser)
    requires day >= 1
    requires t1.time != "" && parse(t1.time) == Some(At(day, 10, 0))
    requires t2.time != "" && parse(t2.time) == Some(At(day, 10, 0))
    ensures var d0, d7, d10, d12 := At(day, 0, 0), At(day, 7, 0), At(day, 10, 0), At(day, 12, 0);
      Timeline(Arr([t1, t2]), day, parse)
      == [Anchor(d0, d0), Gap(d0, d7), Anchor(d7, d7), Gap(d7, d10),
          Group(d10, d10 + 60, [Timed(t1, d10), Timed(t2, d10)]), Gap(d10 + 60, d12), Anchor(d12, d12)]
  {
    var e1, e2 := Timed(t1, At(day, 10, 0)), Timed(t2, At(day, 10, 0));
    AtParts(day, 10, 0);
    TwoDayTodos(t1, t2, day, e1.at, e2.at, parse);
    TwoTodoItems(e1, e2, day);
    SameInstantMerge(e1, e2, day);
    SameInstantSweep(e1, e2, day);
    SameInstantPostPass(e1, e2, day);
  }

  // ---------------------------------------------------------------- 10:00, 10:30 and 11:15

  lemma LateMergeMerge(e1: Timed, e2: Timed, e3: Timed, day: int)
    requires e1.at == At(day, 10, 0) && e2.at == At(day, 10, 30) && e3.at == At(day, 11, 15)
    ensures Merge([TodoItem(e1), TodoItem(e2), TodoItem(e3)], Anchors(day), ItemKey)
         == [AnchorItem(0, At(day, 0, 0)), AnchorItem(7, At(day, 7, 0)), TodoItem(e1), TodoItem(e2), TodoItem(e3),
             AnchorItem(12, At(day, 12, 0))]
  {
    AnchorsOf(day);
    var a0, a7, a12 := AnchorItem(0, At(day, 0, 0)), AnchorItem(7, At(day, 7, 0)), AnchorItem(12, At(day, 12, 0));
    var ts1, ts2, ts3 := [TodoItem(e1), TodoItem(e2), TodoItem(e3)], [TodoItem(e2), TodoItem(e3)], [TodoItem(e3)];
    var as0, as7, as12 := [a0, a7, a12], [a7, a12], [a12];
    assert ts1[1..] == ts2 && ts2[1..] == ts3 && ts3[1..] == [];
    assert as0[1..] == as7 && as7[1..] == as12;
    MergeTakeRight(ts1, as0, ItemKey);
    MergeTakeRight(ts1, as7, ItemKey);
    MergeTakeLeft(ts1, as12, ItemKey);
    MergeTakeLeft(ts2, as12, ItemKey);
    MergeTakeLeft(ts3, as12, ItemKey);
  }

  lemma LateMergeSweep(e1: Timed, e2: Timed, e3: Timed, day: int)
    requires day >= 1
    requires e1.at == At(day, 10, 0) && e2.at == At(day, 10, 30) && e3.at == At(day, 11, 15)
    ensures var d0, d7, d10, d12, d1030, d1115 :=
        At(day, 0, 0), At(day, 7, 0), At(day, 10, 0), At(day, 12, 0), At(day, 10, 30), At(day, 11, 15);
      SweepOf([AnchorItem(0, d0), AnchorItem(7, d7), TodoItem(e1), TodoItem(e2), TodoItem(e3), AnchorItem(12, d12)])
      == Sweep([Anchor(d0, d0), Gap(d0, d7), Anchor(d7, d7), Gap(d7, d10), Group(d10, d1030 + 60, [e1, e2]),
                Gap(d10 + 60, d1115), Group(d1115, d1115 + 60, [e3]), Anchor(d12, d12)], Some(d1115 + 60))
  {
    var d0, d7, d10, d12, d1030, d1115 :=
      At(day, 0, 0), At(day, 7, 0), At(day, 10, 0), At(day, 12, 0), At(day, 10, 30), At(day, 11, 15);
    var a0, a7, a12 := AnchorItem(0, d0), AnchorItem(7, d7), AnchorItem(12, d12);
    var t1, t2, t3 := TodoItem(e1), TodoItem(e2), TodoItem(e3);
    var s1 := Sweep([Anchor(d0, d0)], Some(d0));
    var s2 := Sweep(s1.segments + [Gap(d0, d7), Anchor(d7, d7)], Some(d7));
    var s3 := Sweep(s2.segments + [Gap(d7, d10), Group(d10, d10 + 60, [e1])], Some(d10 + 60));
    var s4 := Sweep(s3.segments[|s3.segments| - 1 := Group(d10, d1030 + 60, [e1, e2])], Some(d10 + 60));
    var s5 := Sweep(s4.segments + [Gap(d10 + 60, d1115), Group(d1115, d1115 + 60, [e3])], Some(d1115 + 60));
    SweepOfSnoc([], a0);
    assert [] + [a0] == [a0];
    assert SweepOf([a0]) == s1;
    SweepOfSnoc([a0], a7);
    assert [a0] + [a7] == [a0, a7];
    assert SweepOf([a0, a7]) == s2;
    SweepOfSnoc([a0, a7], t1);
    assert [a0, a7] + [t1] == [a0, a7, t1];
    assert SweepOf([a0, a7, t1]) == s3;
    SweepOfSnoc([a0, a7, t1], t2);
    assert [a0, a7, t1] + [t2] == [a0, a7, t1, t2];
    assert [e1] + [e2] == [e1, e2];
    assert SweepOf([a0, a7, t1, t2]) == s4;
    SweepOfSnoc([a0, a7, t1, t2], t3);
    assert [a0, a7, t1, t2] + [t3] == [a0, a7, t1, t2, t3];
    assert SweepOf([a0, a7, t1, t2, t3]) == s5;
    SweepOfSnoc([a0, a7, t1, t2, t3], a12);
    assert [a0, a7, t1, t2, t3] + [a12] == [a0, a7, t1, t2, t3, a12];
  }

  lemma LateMergePostPass(e1: Timed, e2: Timed, e3: Timed, day: int)
    ensures var d0, d7, d10, d12, d1030, d1115 :=
        At(day, 0, 0), At(day, 7, 0), At(day, 10, 0), At(day, 12, 0), At(day, 10, 30), At(day, 11, 15);
      PostPass([Anchor(d0, d0), Gap(d0, d7), Anchor(d7, d7), Gap(d7, d10), Group(d10, d1030 + 60, [e1, e2]),
                Gap(d10 + 60, d1115), Group(d1115, d1115 + 60, [e3]), Anchor(d12, d12)])
      == [Anchor(d0, d0), Gap(d0, d7), Anchor(d7, d7), Gap(d7, d10), Group(d10, d1030 + 60, [e1, e2]),
          Gap(d10 + 60, d1115), Group(d1115, d1115 + 60, [e3])]
  {
    var d0, d7, d10, d12, d1030, d1115 :=
      At(day, 0, 0), At(day, 7, 0), At(day, 10, 0), At(day, 12, 0), At(day, 10, 30), At(day, 11, 15);
    AtParts(day, 0, 0);
    AtParts(day, 7, 0);
    AtParts(day, 11, 0);
    AtParts(day, 11, 15);
    AtParts(day, 12, 0);
    var kept := [Anchor(d0, d0), Gap(d0, d7), Anchor(d7, d7), Gap(d7, d10), Group(d10, d1030 + 60, [e1, e2]),
                 Gap(d10 + 60, d1115), Group(d1115, d1115 + 60, [e3])];
    KeepChain(kept);
    PostPassSnoc(kept, Anchor(d12, d12));
    assert kept + [Anchor(d12, d12)]
        == [Anchor(d0, d0), Gap(d0, d7), Anchor(d7, d7), Gap(d7, d10), Group(d10, d1030 + 60, [e1, e2]),
            Gap(d10 + 60, d1115), Group(d1115, d1115 + 60, [e3]), Anchor(d12, d12)];
  }

  lemma LateMergeDayTodos(t1: Todo, t2: Todo, t3: Todo, day: int, parse: Parser)
    requires t1.time != "" && parse(t1.time) == Some(At(day, 10, 0))
    requires t2.time != "" && parse(t2.time) == Some(At(day, 10, 30))
    requires t3.time != "" && parse(t3.time) == Some(At(day, 11, 15))
    ensures DayTodos(Arr([t1, t2, t3]), day, parse)
         == [Timed(t1, At(day, 10, 0)), Timed(t2, At(day, 10, 30)), Timed(t3, At(day, 11, 15))]
  {
    AtParts(day, 10, 0);
    AtParts(day, 10, 30);
    AtParts(day, 11, 15);
    ThreeDayTodos(t1, t2, t3, day, At(day, 10, 0), At(day, 10, 30), At(day, 11, 15), parse);
  }

  /**
   * 10:00, 10:30 and 11:15: the 10:30 todo joins the 10:00 group and
   * stretches it to 11:30, but `lastEndTime` stays at 11:00, so a gap from
   * 11:00 to 11:15 follows a group that runs until 11:30. The noon anchor
   * falls inside the 11:15 group and is dropped.
   */
  lemma MergeKeepsLastEnd(t1: Todo, t2: Todo, t3: Todo, day: int, parse: Parser)
    requires day >= 1
    requires t1.time != "" && parse(t1.time) == Some(At(day, 10, 0))
    requires t2.time != "" && parse(t2.time) == Some(At(day, 10, 30))
    requires t3.time != "" && parse(t3.time) == Some(At(day, 11, 15))
    ensures var d0, d7, d10, d1030, d1115 := At(day, 0, 0), At(day, 7, 0), At(day, 10, 0), At(day, 10, 30), At(day, 11, 15);
      Timeline(Arr([t1, t2, t3]), day, parse)
      == [Anchor(d0, d0), Gap(d0, d7), Anchor(d7, d7), Gap(d7, d10),
          Group(d10, d1030 + 60, [Timed(t1, d10), Timed(t2, d1030)]),
          Gap(d10 + 60, d1115), Group(d1115, d1115 + 60, [Timed(t3, d1115)])]
  {
    var e1, e2, e3 := Timed(t1, At(day, 10, 0)), Timed(t2, At(day, 10, 30)), Timed(t3, At(day, 11, 15));
    LateMergeDayTodos(t1, t2, t3, day, parse);
    var all := AllItems([e1, e2, e3], day);
    assert all == [AnchorItem(0, At(day, 0, 0)), AnchorItem(7, At(day, 7, 0)), TodoItem(e1), TodoItem(e2), TodoItem(e3),
                   AnchorItem(12, At(day, 12, 0))] by {
      ThreeTodoItems(e1, e2, e3, day);
      LateMergeMerge(e1, e2, e3, day);
    }
    LateMergeSweep(e1, e2, e3, day);
    LateMergePostPass(e1, e2, e3, day);
  }

  // ---------------------------------------------------------------- 06:30 and 07:15

  lemma SplitMerge(e1: Timed, e2: Timed, day: int)
    requires e1.at == At(day, 6, 30) && e2.at == At(day, 7, 15)
    ensures Merge([TodoItem(e1), TodoItem(e2)], Anchors(day), ItemKey)
         == [AnchorItem(0, At(day, 0, 0)), TodoItem(e1), AnchorItem(7, At(day, 7, 0)), TodoItem(e2),
             AnchorItem(12, At(day, 12, 0))]
  {
    AnchorsOf(day);
    var a0, a7, a12 := AnchorItem(0, At(day, 0, 0)), AnchorItem(7, At(day, 7, 0)), AnchorItem(12, At(day, 12, 0));
    var ts1, ts2 := [TodoItem(e1), TodoItem(e2)], [TodoItem(e2)];
    var as0, as7, as12 := [a0, a7, a12], [a7, a12], [a12];
    assert ts1[1..] == ts2 && ts2[1..] == [];
    assert as0[1..] == as7 && as7[1..] == as12;
    MergeTakeRight(ts1, as0, ItemKey);
    MergeTakeLeft(ts1, as7, ItemKey);
    MergeTakeRight(ts2, as7, ItemKey);
    MergeTakeLeft(ts2, as12, ItemKey);
  }

  lemma SplitSweep(e1: Timed, e2: Timed, day: int)
    requires day >= 1 && e1.at == At(day, 6, 30) && e2.at == At(day, 7, 15)
    ensures var d0, d630, d7, d715, d12 := At(day, 0, 0), At(day, 6, 30), At(day, 7, 0), At(day, 7, 15), At(day, 12, 0);
      SweepOf([AnchorItem(0, d0), TodoItem(e1), AnchorItem(7, d7), TodoItem(e2), AnchorItem(12, d12)]).segments
      == [Anchor(d0, d0), Gap(d0, d630), Group(d630, d630 + 60, [e1]), Anchor(d7, d7),
          Group(d715, d715 + 60, [e2]), Gap(d715 + 60, d12), Anchor(d12, d12)]
  {
    var d0, d630, d7, d715, d12 := At(day, 0, 0), At(day, 6, 30), At(day, 7, 0), At(day, 7, 15), At(day, 12, 0);
    var a0, a7, a12 := AnchorItem(0, d0), AnchorItem(7, d7), AnchorItem(12, d12);
    var t1, t2 := TodoItem(e1), TodoItem(e2);
    var s1 := Sweep([Anchor(d0, d0)], Some(d0));
    var s2 := Sweep(s1.segments + [Gap(d0, d630), Group(d630, d630 + 60, [e1])], Some(d630 + 60));
    var s3 := Sweep(s2.segments + [Anchor(d7, d7)], Some(d630 + 60));
    var s4 := Sweep(s3.segments + [Group(d715, d715 + 60, [e2])], Some(d715 + 60));
    SweepOfSnoc([], a0);
    assert [] + [a0] == [a0];
    assert SweepOf([a0]) == s1;
    SweepOfSnoc([a0], t1);
    assert [a0] + [t1] == [a0, t1];
    assert SweepOf([a0, t1]) == s2;
    SweepOfSnoc([a0, t1], a7);
    assert [a0, t1] + [a7] == [a0, t1, a7];
    assert SweepOf([a0, t1, a7]) == s3;
    SweepOfSnoc([a0, t1, a7], t2);
    assert [a0, t1, a7] + [t2] == [a0, t1, a7, t2];
    assert SweepOf([a0, t1, a7, t2]) == s4;
    SweepOfSnoc([a0, t1, a7, t2], a12);
    assert [a0, t1, a7, t2] + [a12] == [a0, t1, a7, t2, a12];
  }

  lemma SplitPostPass(e1: Timed, e2: Timed, day: int)
    requires e1.at == At(day, 6, 30) && e2.at == At(day, 7, 15)
    ensures var d0, d630, d7, d715, d12 := At(day, 0, 0), At(day, 6, 30), At(day, 7, 0), At(day, 7, 15), At(day, 12, 0);
      PostPass([Anchor(d0, d0), Gap(d0, d630), Group(d630, d630 + 60, [e1]), Anchor(d7, d7),
                Group(d715, d715 + 60, [e2]), Gap(d715 + 60, d12), Anchor(d12, d12)])
      == [Anchor(d0, d0), Gap(d0, d630), Group(d630, d630 + 60, [e1]),
          Group(d715, d715 + 60, [e2]), Gap(d715 + 60, d12), Anchor(d12, d12)]
  {
    var d0, d630, d7, d715, d12 := At(day, 0, 0), At(day, 6, 30), At(day, 7, 0), At(day, 7, 15), At(day, 12, 0);
    AtParts(day, 0, 0);
    AtParts(day, 6, 30);
    AtParts(day, 7, 0);
    AtParts(day, 8, 15);
    AtParts(day, 12, 0);
    var head := [Anchor(d0, d0), Gap(d0, d630), Group(d630, d630 + 60, [e1])];
    var g2, gap, a12 := Group(d715, d715 + 60, [e2]), Gap(d715 + 60, d12), Anchor(d12, d12);
    var p0 := head + [Anchor(d7, d7)];
    KeepChain(head);
    PostPassSnoc(head, Anchor(d7, d7));
    PostPassKeeps(p0, head, g2);
    PostPassKeeps(p0 + [g2], head + [g2], gap);
    PostPassKeeps(p0 + [g2] + [gap], head + [g2] + [gap], a12);
    assert p0 + [g2] + [gap] + [a12]
        == [Anchor(d0, d0), Gap(d0, d630), Group(d630, d630 + 60, [e1]), Anchor(d7, d7), g2, gap, a12];
    assert head + [g2] + [gap] + [a12] == [Anchor(d0, d0), Gap(d0, d630), Group(d630, d630 + 60, [e1]), g2, gap, a12];
  }

  /**
   * 06:30 and 07:15: the 07:00 anchor comes between the two todos and starts
   * its own segment, so the 07:15 todo, although it overlaps the first, opens
   * a second group; the post-pass then drops the anchor inside the first.
   */
  lemma AnchorSplitsOverlap(t1: Todo, t2: Todo, day: int, parse: Parser)
    requires day >= 1
    requires t1.time != "" && parse(t1.time) == Some(At(day, 6, 30))
    requires t2.time != "" && parse(t2.time) == Some(At(day, 7, 15))
    ensures var d0, d630, d715, d12 := At(day, 0, 0), At(day, 6, 30), At(day, 7, 15), At(day, 12, 0);
      Timeline(Arr([t1, t2]), day, parse)
      == [Anchor(d0, d0), Gap(d0, d630), Group(d630, d630 + 60, [Timed(t1, d630)]),
          Group(d715, d715 + 60, [Timed(t2, d715)]), Gap(d715 + 60, d12), Anchor(d12, d12)]
  {
    var e1, e2 := Timed(t1, At(day, 6, 30)), Timed(t2, At(day, 7, 15));
    AtParts(day, 6, 30);
    AtParts(day, 7, 15);
    TwoDayTodos(t1, t2, day, e1.at, e2.at, parse);
    TwoTodoItems(e1, e2, day);
    SplitMerge(e1, e2, day);
    SplitSweep(e1, e2, day);
    SplitPostPass(e1, e2, day);
  }
}
