/**
 The week a stack of schedules paints (`src/lib/scheduleStack.ts`).

 The source walks the sorted on and off edges round a cyclic week. The meaning it is proved against
 does not mention the walk: a minute is on when the latest edge at or before it, round the week, is an
 on edge.
 */
module ScheduleStack {
  import opened Wrappers
  import opened Sorting

  /** Minutes in a day are written out below, so that products with a day number stay linear. */
  const WEEK := 10080

  type Minute = m: nat | m < 1440

  /** Monday first, as every `days` string is encoded. */
  type DayFlags = d: seq<bool> | |d| == 7 witness [false, false, false, false, false, false, false]

  datatype Schedule = Schedule(enabled: bool, days: DayFlags, on: Option<Minute>, off: Option<Minute>)

  datatype Edge = Edge(at: int, on: bool)

  datatype Span = Span(day: int, startMin: int, endMin: int) {
    function From(): int { 1440 * day + startMin }
    function To(): int { 1440 * day + endMin }
  }

  datatype WeekTimeline = WeekTimeline(spans: seq<Span>, empty: bool, neverOff: bool)

  // ---------------------------------------------------------------- what a stack means

  ghost predicate IsEdgeOf(rule: Schedule, day: int, e: Edge) {
    && rule.enabled && 0 <= day < 7 && rule.days[day]
    && (if e.on then rule.on.Some? && e.at == 1440 * day + rule.on.value
        else rule.off.Some? && e.at == 1440 * day + rule.off.value)
  }

  ghost predicate IsEdge(stack: seq<Schedule>, e: Edge) {
    exists r, day :: r in stack && IsEdgeOf(r, day, e)
  }

  /** `edges` lists exactly the edges the armed rules of `stack` produce. */
  ghost predicate EdgesOf(stack: seq<Schedule>, edges: seq<Edge>) {
    forall e :: e in edges <==> IsEdge(stack, e)
  }

  ghost predicate AnyBy(edges: seq<Edge>, m: int) {
    exists e :: e in edges && e.at <= m
  }

  ghost predicate Latest(edges: seq<Edge>, e: Edge, m: int) {
    e in edges && e.at <= m && forall f | f in edges && f.at <= m :: f.at <= e.at
  }

  /** Among the latest edges at or before `m`, one switches on. */
  ghost predicate LatestOn(edges: seq<Edge>, m: int) {
    exists e :: Latest(edges, e, m) && e.on
  }

  /** The week is a loop: before its first edge, the week's last edges decide. */
  ghost predicate OnAt(edges: seq<Edge>, m: int) {
    LatestOn(edges, if AnyBy(edges, m) then m else WEEK - 1)
  }

  ghost predicate Within(s: Span, m: int) {
    s.From() <= m < s.To()
  }

  ghost predicate Covered(spans: seq<Span>, m: int) {
    exists s :: s in spans && Within(s, m)
  }

  ghost predicate InOneDay(s: Span) {
    0 <= s.day < 7 && 0 <= s.startMin < s.endMin <= 1440
  }

  /** Every span inside its day, in order, and no two of one day touching. */
  ghost predicate Normal(spans: seq<Span>) {
    && (forall i | 0 <= i < |spans| :: InOneDay(spans[i]))
    && (forall i, j | 0 <= i < j < |spans| ::
          spans[i].day < spans[j].day || (spans[i].day == spans[j].day && spans[i].endMin < spans[j].startMin))
  }

  /** What `weekTimeline` promises for a list of edges. */
  ghost predicate Paints(edges: seq<Edge>, t: WeekTimeline) {
    && Normal(t.spans)
    && (t.empty <==> edges == [])
    && (t.neverOff <==> edges != [] && forall e | e in edges :: e.on)
    && (t.empty ==> t.spans == [])
    && (forall m | 0 <= m < WEEK ::
          Covered(t.spans, m) <==>
          if t.neverOff then AnyBy(edges, m) else OnAt(edges, m))
  }

  // ---------------------------------------------------------------- the source's loops

  predicate EdgeLe(a: Edge, b: Edge) {
    a.at < b.at || (a.at == b.at && (!a.on || b.on))
  }

  predicate SpanLe(a: Span, b: Span) {
    a.day < b.day || (a.day == b.day && a.startMin <= b.startMin)
  }

  method CollectEdges(stack: seq<Schedule>) returns (edges: seq<Edge>)
    ensures EdgesOf(stack, edges)
    ensures forall e | e in edges :: 0 <= e.at < WEEK
  {
    edges := [];
    for i := 0 to |stack|
      invariant forall e :: e in edges <==> IsEdge(stack[..i], e)
      invariant forall e | e in edges :: 0 <= e.at < WEEK
    {
      var rule := stack[i];
      ghost var before := edges;
      assert stack[..i + 1] == stack[..i] + [rule];
      if rule.enabled {
        for day := 0 to 7
          invariant forall e :: e in edges <==> e in before || (exists d :: d < day && IsEdgeOf(rule, d, e))
          invariant forall e | e in edges :: 0 <= e.at < WEEK
        {
          ghost var sofar := edges;
          if rule.days[day] {
            if rule.on.Some? {
              edges := edges + [Edge(1440 * day + rule.on.value, true)];
            }
            if rule.off.Some? {
              edges := edges + [Edge(1440 * day + rule.off.value, false)];
            }
          }
          forall e ensures e in edges <==> e in before || (exists d :: d < day + 1 && IsEdgeOf(rule, d, e)) {
            assert e in edges <==> e in sofar || IsEdgeOf(rule, day, e);
          }
        }
      }
      forall e ensures e in edges <==> IsEdge(stack[..i + 1], e) {
        assert IsEdge(stack[..i + 1], e) <==> IsEdge(stack[..i], e) || (exists d :: IsEdgeOf(rule, d, e));
      }
    }
    assert stack[..|stack|] == stack;
  }

  /** One range of week minutes, cut at midnight. */
  method SplitByDay(startAbs: int, endAbs: int) returns (out: seq<Span>)
    requires 0 <= startAbs && endAbs <= WEEK
    ensures Normal(out)
    ensures forall m :: Covered(out, m) <==> startAbs <= m < endAbs
  {
    out := [];
    var cursor := startAbs;
    while cursor < endAbs
      invariant if startAbs <= endAbs then startAbs <= cursor <= endAbs else cursor == startAbs
      invariant cursor < endAbs && out != [] ==> cursor % 1440 == 0
      invariant out != [] ==> out[|out| - 1].To() <= cursor
      invariant Normal(out)
      invariant forall m :: Covered(out, m) <==> startAbs <= m < cursor
    {
      var day := cursor / 1440;
      var dayEnd := 1440 * (day + 1);
      var sliceEnd := if endAbs < dayEnd then endAbs else dayEnd;
      var span := Span(day, cursor - 1440 * day, sliceEnd - 1440 * day);
      PushApart(out, span);
      out := out + [span];
      cursor := sliceEnd;
    }
  }

  lemma {:induction false} CoveredAppend(spans: seq<Span>, s: Span)
    ensures forall m :: Covered(spans + [s], m) <==> Covered(spans, m) || Within(s, m)
  {
    forall m ensures Covered(spans + [s], m) <==> Covered(spans, m) || Within(s, m) {
      assert forall x :: x in spans + [s] <==> x in spans || x == s;
    }
  }

  lemma {:induction false} CoveredConcat(a: seq<Span>, b: seq<Span>)
    ensures forall m :: Covered(a + b, m) <==> Covered(a, m) || Covered(b, m)
  {
    assert forall x :: x in a + b <==> x in a || x in b;
  }

  lemma {:induction false} ExtendLast(out: seq<Span>, span: Span)
    requires Normal(out) && out != [] && InOneDay(span)
    requires out[|out| - 1].day == span.day && out[|out| - 1].startMin <= span.startMin <= out[|out| - 1].endMin
    ensures var last := out[|out| - 1];
            var grown := out[|out| - 1 :=
              last.(endMin := if last.endMin < span.endMin then span.endMin else last.endMin)];
            && Normal(grown)
            && forall m :: Covered(grown, m) <==> Covered(out, m) || Within(span, m)
  {
    var last := out[|out| - 1];
    var merged := last.(endMin := if last.endMin < span.endMin then span.endMin else last.endMin);
    var init := out[..|out| - 1];
    assert out == init + [last] && out[|out| - 1 := merged] == init + [merged];
    CoveredAppend(init, last);
    CoveredAppend(init, merged);
    assert forall m :: Within(merged, m) <==> Within(last, m) || Within(span, m);
  }

  lemma {:induction false} PushApart(out: seq<Span>, span: Span)
    requires Normal(out) && InOneDay(span)
    requires out == [] || (SpanLe(out[|out| - 1], span)
      && (out[|out| - 1].day == span.day ==> out[|out| - 1].endMin < span.startMin))
    ensures Normal(out + [span])
    ensures forall m :: Covered(out + [span], m) <==> Covered(out, m) || Within(span, m)
  {
    CoveredAppend(out, span);
  }

  /** Spans of one day that overlap or meet become one. */
  method MergeAdjacent(spans: seq<Span>) returns (out: seq<Span>)
    requires forall s | s in spans :: InOneDay(s)
    ensures Normal(out)
    ensures forall m :: Covered(out, m) <==> Covered(spans, m)
  {
    var sorted := Sort(SpanLe, spans);
    SortElements(SpanLe, spans);
    SortSorted(SpanLe, spans);
    assert forall i | 0 <= i < |sorted| :: sorted[i] in spans;
    out := MergeSorted(sorted);
    forall m ensures Covered(out, m) <==> Covered(spans, m) {
      assert Covered(sorted, m) <==> Covered(spans, m);
    }
  }

  method MergeSorted(sorted: seq<Span>) returns (out: seq<Span>)
    requires forall i | 0 <= i < |sorted| :: InOneDay(sorted[i])
    requires SortedBy(SpanLe, sorted)
    ensures Normal(out)
    ensures forall m :: Covered(out, m) <==> Covered(sorted, m)
  {
    out := [];
    for i := 0 to |sorted|
      invariant Normal(out)
      invariant i > 0 ==> out != [] && SpanLe(out[|out| - 1], sorted[i - 1])
      invariant i == 0 ==> out == []
      invariant forall m :: Covered(out, m) <==> Covered(sorted[..i], m)
    {
      var span := sorted[i];
      assert i == 0 || SpanLe(sorted[i - 1], span);
      if out != [] && out[|out| - 1].day == span.day && span.startMin <= out[|out| - 1].endMin {
        ExtendLast(out, span);
        var last := out[|out| - 1];
        out := out[|out| - 1 := last.(endMin := if last.endMin < span.endMin then span.endMin else last.endMin)];
      } else {
        PushApart(out, span);
        out := out + [span];
      }
      CoveredAppend(sorted[..i], span);
      assert sorted[..i + 1] == sorted[..i] + [span];
    }
    assert sorted[..|sorted|] == sorted;
  }

  /** The state left by the first `i` sorted edges; before the first, by the week's last. */
  ghost function StateAfter(sorted: seq<Edge>, i: int): bool
    requires 0 <= i <= |sorted| && sorted != []
  {
    if i == 0 then sorted[|sorted| - 1].on else sorted[i - 1].on
  }

  ghost function PlaceAfter(sorted: seq<Edge>, i: int): int
    requires 0 <= i <= |sorted|
  {
    if i == 0 then 0 else sorted[i - 1].at
  }

  /** Between two neighbouring edges the walk's state is the cyclic meaning. */
  lemma {:induction false} StateBetween(sorted: seq<Edge>, i: int, m: int)
    requires sorted != [] && SortedBy(EdgeLe, sorted) && 0 <= i <= |sorted|
    requires forall e | e in sorted :: 0 <= e.at < WEEK
    requires PlaceAfter(sorted, i) <= m && (i < |sorted| ==> m < sorted[i].at)
    ensures OnAt(sorted, m) <==> StateAfter(sorted, i)
  {
    assert forall j | i <= j < |sorted| :: EdgeLe(sorted[i], sorted[j]);
    if i == 0 {
      assert !AnyBy(sorted, m);
      LastDecides(sorted, |sorted|, WEEK - 1);
    } else {
      assert sorted[i - 1] in sorted;
      LastDecides(sorted, i, m);
    }
  }

  lemma {:induction false} LastDecides(sorted: seq<Edge>, i: int, m: int)
    requires 1 <= i <= |sorted| && SortedBy(EdgeLe, sorted)
    requires forall j | 0 <= j < i :: sorted[j].at <= m
    requires forall j | i <= j < |sorted| :: m < sorted[j].at
    ensures LatestOn(sorted, m) <==> sorted[i - 1].on
  {
    var e := sorted[i - 1];
    assert forall j | 0 <= j < i - 1 :: EdgeLe(sorted[j], e);
    assert Latest(sorted, e, m);
    if f :| Latest(sorted, f, m) && f.on {
      var k :| 0 <= k < |sorted| && sorted[k] == f;
      assert f.at == e.at && k < i;
      assert k == i - 1 || EdgeLe(sorted[k], e);
    }
  }

  lemma {:induction false} FromTheFirst(sorted: seq<Edge>, edges: seq<Edge>)
    requires sorted != [] && SortedBy(EdgeLe, sorted)
    requires forall e :: e in sorted <==> e in edges
    ensures forall m: int :: AnyBy(edges, m) <==> sorted[0].at <= m
  {
    assert sorted[0] in edges;
    forall e | e in edges ensures sorted[0].at <= e.at {
      var k :| 0 <= k < |sorted| && sorted[k] == e;
      assert k == 0 || EdgeLe(sorted[0], sorted[k]);
    }
  }

  /** `t` is the week painted by the edges of the stack's armed rules. */
  ghost predicate IsTimelineOf(stack: seq<Schedule>, t: WeekTimeline) {
    exists edges :: EdgesOf(stack, edges) && Paints(edges, t)
  }

  method WeekTimelineOf(stack: seq<Schedule>) returns (t: WeekTimeline)
    ensures IsTimelineOf(stack, t)
  {
    var es := CollectEdges(stack);
    if |es| == 0 {
      t := WeekTimeline([], true, false);
      assert Paints(es, t);
      return;
    }
    var sorted := Sort(EdgeLe, es);
    SortElements(EdgeLe, es);
    SortSorted(EdgeLe, es);
    SameMeaning(sorted, es);

    var neverOff := forall e | e in sorted :: e.on;
    if neverOff {
      var first := sorted[0].at;
      var spans := SplitByDay(first, WEEK);
      FromTheFirst(sorted, es);
      t := WeekTimeline(spans, false, true);
      assert Paints(es, t);
      return;
    }

    var painted := Walk(sorted);
    var merged := MergeAdjacent(painted);
    assert exists e :: e in es && !e.on;
    t := WeekTimeline(merged, false, false);
    assert Paints(es, t);
  }

  /** The walk from the first edge to the end of the week, opening and closing spans. */
  method Walk(sorted: seq<Edge>) returns (spans: seq<Span>)
    requires sorted != [] && SortedBy(EdgeLe, sorted)
    requires forall e | e in sorted :: 0 <= e.at < WEEK
    ensures forall s | s in spans :: InOneDay(s)
    ensures forall m | 0 <= m < WEEK :: Covered(spans, m) <==> OnAt(sorted, m)
  {
    var on := sorted[|sorted| - 1].on;
    var openedAt: Option<int> := if on then Some(0) else None;
    spans := [];
    for i := 0 to |sorted|
      invariant on == StateAfter(sorted, i)
      invariant openedAt.Some? == on
      invariant on ==> 0 <= openedAt.value <= PlaceAfter(sorted, i)
      invariant forall s | s in spans :: InOneDay(s)
      invariant forall m :: Covered(spans, m) ==> 0 <= m < PlaceAfter(sorted, i)
      invariant forall m | 0 <= m < PlaceAfter(sorted, i) ::
                  (Covered(spans, m) || (on && openedAt.value <= m)) <==> OnAt(sorted, m)
    {
      var edge := sorted[i];
      assert i > 0 ==> EdgeLe(sorted[i - 1], edge);
      forall m | PlaceAfter(sorted, i) <= m < edge.at ensures OnAt(sorted, m) <==> on {
        StateBetween(sorted, i, m);
      }
      if edge.on && !on {
        on := true;
        openedAt := Some(edge.at);
      } else if !edge.on && on {
        on := false;
        if edge.at > openedAt.value {
          var cut := SplitByDay(openedAt.value, edge.at);
          CoveredConcat(spans, cut);
          spans := spans + cut;
        }
        openedAt := None;
      }
    }
    forall m | PlaceAfter(sorted, |sorted|) <= m < WEEK ensures OnAt(sorted, m) <==> on {
      StateBetween(sorted, |sorted|, m);
    }
    if on {
      var cut := SplitByDay(openedAt.value, WEEK);
      CoveredConcat(spans, cut);
      spans := spans + cut;
    }
  }

  // ---------------------------------------------------------------- consequences

  /** The meaning depends on which edges there are, not on their order or how often each is listed. */
  lemma {:induction false} SameMeaning(a: seq<Edge>, b: seq<Edge>)
    requires forall e :: e in a <==> e in b
    ensures forall m :: OnAt(a, m) <==> OnAt(b, m)
  {
    assert forall m :: AnyBy(a, m) <==> AnyBy(b, m);
    assert forall e, m :: Latest(a, e, m) <==> Latest(b, e, m);
  }

  /** Two normal lists painting the same minutes are the same list. */
  lemma {:induction false} NormalIsUnique(a: seq<Span>, b: seq<Span>)
    requires Normal(a) && Normal(b)
    requires forall m :: Covered(a, m) <==> Covered(b, m)
    ensures a == b
  {
    FirstIsCovered(a);
    FirstIsCovered(b);
    if a != [] && b != [] {
      SameFirst(a, b);
      assert a == [a[0]] + a[1..] && b == [b[0]] + b[1..];
      forall m ensures Covered(a[1..], m) <==> Covered(b[1..], m) { SameRest(a, b, m); }
      NormalIsUnique(a[1..], b[1..]);
    }
  }

  lemma {:induction false} SameFirst(a: seq<Span>, b: seq<Span>)
    requires a != [] && b != [] && Normal(a) && Normal(b)
    requires forall m :: Covered(a, m) <==> Covered(b, m)
    ensures a[0] == b[0]
  {
    FirstStartsNoLater(a, b);
    FirstStartsNoLater(b, a);
    FirstEndsNoLater(a, b);
    FirstEndsNoLater(b, a);
  }

  lemma {:induction false} SameRest(a: seq<Span>, b: seq<Span>, m: int)
    requires a != [] && b != [] && Normal(a) && Normal(b) && a[0] == b[0]
    requires Covered(a, m) <==> Covered(b, m)
    ensures Covered(a[1..], m) <==> Covered(b[1..], m)
  {
    TailApart(a, m);
    TailApart(b, m);
  }

  lemma {:induction false} FirstIsCovered(a: seq<Span>)
    requires Normal(a)
    ensures a != [] ==> Covered(a, a[0].From())
    ensures a == [] ==> forall m :: !Covered(a, m)
  {
    if a != [] { assert a[0] in a && Within(a[0], a[0].From()); }
  }

  lemma {:induction false} TailApart(a: seq<Span>, m: int)
    requires a != [] && Normal(a)
    ensures Covered(a[1..], m) ==> a[0].To() <= m
    ensures Covered(a, m) <==> Within(a[0], m) || Covered(a[1..], m)
    ensures Covered(a[1..], m) && a[0].endMin < 1440 ==> a[0].To() < m
  {
    assert forall s :: s in a <==> s == a[0] || s in a[1..];
    if Covered(a[1..], m) {
      var s :| s in a[1..] && Within(s, m);
      var k :| 1 <= k < |a| && a[k] == s;
    }
  }

  lemma {:induction false} FirstStartsNoLater(a: seq<Span>, b: seq<Span>)
    requires a != [] && b != [] && Normal(a) && Normal(b)
    requires forall m :: Covered(a, m) <==> Covered(b, m)
    ensures a[0].day < b[0].day || (a[0].day == b[0].day && a[0].startMin <= b[0].startMin)
  {
    var m := b[0].From();
    assert b[0] in b && Within(b[0], m);
    assert Covered(a, m);
    TailApart(a, m);
  }

  lemma {:induction false} FirstEndsNoLater(a: seq<Span>, b: seq<Span>)
    requires a != [] && b != [] && Normal(a) && Normal(b)
    requires forall m :: Covered(a, m) <==> Covered(b, m)
    requires a[0].day == b[0].day && a[0].startMin == b[0].startMin
    ensures a[0].endMin <= b[0].endMin
  {
    if b[0].endMin < a[0].endMin {
      var m := b[0].To();
      assert a[0] in a && Within(a[0], m);
      assert Covered(b, m);
      TailApart(b, m);
    }
  }

  /**
   `weekTimeline`'s answer is a function of the set of edges alone: reordering the rules, or writing
   one twice, cannot change the picture.
   */
  lemma {:induction false} TimelineDependsOnlyOnEdges(e1: seq<Edge>, t1: WeekTimeline, e2: seq<Edge>, t2: WeekTimeline)
    requires Paints(e1, t1) && Paints(e2, t2)
    requires forall e :: e in e1 <==> e in e2
    ensures t1 == t2
  {
    SameMeaning(e1, e2);
    assert e1 == [] || e1[0] in e2;
    assert e2 == [] || e2[0] in e1;
    forall m ensures Covered(t1.spans, m) <==> Covered(t2.spans, m) {
      if !(0 <= m < WEEK) {
        NormalStaysInWeek(t1.spans, m);
        NormalStaysInWeek(t2.spans, m);
      }
    }
    NormalIsUnique(t1.spans, t2.spans);
  }

  /** The order of the rules, and repeating one, do not matter. */
  lemma {:induction false} StackOrderIsIrrelevant(s1: seq<Schedule>, t1: WeekTimeline, s2: seq<Schedule>,
        t2: WeekTimeline)
    requires IsTimelineOf(s1, t1) && IsTimelineOf(s2, t2)
    requires forall r :: r in s1 <==> r in s2
    ensures t1 == t2
  {
    assert forall e :: IsEdge(s1, e) <==> IsEdge(s2, e);
    var e1 :| EdgesOf(s1, e1) && Paints(e1, t1);
    var e2 :| EdgesOf(s2, e2) && Paints(e2, t2);
    TimelineDependsOnlyOnEdges(e1, t1, e2, t2);
  }

  lemma {:induction false} NormalStaysInWeek(spans: seq<Span>, m: int)
    requires Normal(spans)
    ensures Covered(spans, m) ==> 0 <= m < WEEK
  {}

  /** The reading the documentation gives: at a shared minute, off wins. */
  ghost predicate OffWinsAt(edges: seq<Edge>, m: int) {
    var upTo := if AnyBy(edges, m) then m else WEEK - 1;
    LatestOn(edges, upTo) && forall e | Latest(edges, e, upTo) :: e.on
  }

  ghost predicate SharedMinute(edges: seq<Edge>) {
    exists at :: Edge(at, true) in edges && Edge(at, false) in edges
  }

  lemma {:induction false} OffWinsMeansTheSameExactly(edges: seq<Edge>)
    requires forall e | e in edges :: 0 <= e.at < WEEK
    ensures (forall m | 0 <= m < WEEK :: OnAt(edges, m) <==> OffWinsAt(edges, m)) <==> !SharedMinute(edges)
  {
    if at :| Edge(at, true) in edges && Edge(at, false) in edges {
      assert Latest(edges, Edge(at, true), at) && Latest(edges, Edge(at, false), at);
      assert OnAt(edges, at) && !OffWinsAt(edges, at);
    } else {
      forall m | 0 <= m < WEEK ensures OnAt(edges, m) <==> OffWinsAt(edges, m) {
        var upTo := if AnyBy(edges, m) then m else WEEK - 1;
        if e :| Latest(edges, e, upTo) && e.on {
          forall f | Latest(edges, f, upTo) ensures f.on {
            assert f.on || (e == Edge(f.at, true) && f == Edge(f.at, false));
          }
        }
      }
    }
  }

  /** The picture the off-wins reading asks for; edges that never switch off are drawn from the first of them. */
  ghost predicate PaintsOffWins(edges: seq<Edge>, t: WeekTimeline) {
    forall m | 0 <= m < WEEK :: Covered(t.spans, m) <==> if t.neverOff then AnyBy(edges, m) else OffWinsAt(edges, m)
  }

  /** The painted week is the off-wins one exactly when no minute carries both an on and an off. */
  lemma {:induction false} OffWinsExactlyWithoutSharedMinutes(edges: seq<Edge>, t: WeekTimeline)
    requires Paints(edges, t) && forall e | e in edges :: 0 <= e.at < WEEK
    ensures PaintsOffWins(edges, t) <==> !SharedMinute(edges)
  {
    OffWinsMeansTheSameExactly(edges);
    if t.neverOff {
      assert SharedMinute(edges) ==> exists e :: e in edges && !e.on;
    } else {
      assert PaintsOffWins(edges, t) <==> forall m | 0 <= m < WEEK :: OnAt(edges, m) <==> OffWinsAt(edges, m);
    }
  }

  /**
   A rule whose on and off are both 08:00, on one day: its whole
   week is painted, where off-wins would paint none of it.
   */
  lemma {:induction false} SharedMinuteExample(t: WeekTimeline)
    requires Paints([Edge(480, false), Edge(480, true)], t)
    ensures forall m | 0 <= m < WEEK :: Covered(t.spans, m)
    ensures forall m | 0 <= m < WEEK :: !OffWinsAt([Edge(480, false), Edge(480, true)], m)
  {
    var es := [Edge(480, false), Edge(480, true)];
    assert es[0] in es && es[1] in es;
    assert !t.neverOff;
    forall m | 0 <= m < WEEK ensures OnAt(es, m) && !OffWinsAt(es, m) {
      var upTo := if AnyBy(es, m) then m else WEEK - 1;
      assert AnyBy(es, m) ==> 480 <= m;
      assert Latest(es, Edge(480, true), upTo) && Latest(es, Edge(480, false), upTo);
    }
  }
}
