/**
 One time grid for a device's history (`src/lib/timeseries.ts`): ordering samples, placing them in
 slots, bridging short gaps, naming the long ones, and finding held readings.
 */
module Timeseries {
  import opened Wrappers
  import opened Sorting

  /** A numeric field as it arrives: absent, a number that is not finite (as it prints), or a finite one. */
  datatype Field = Absent | NonFinite(text: string) | Num(v: real)

  /** Timestamps are what `Date.parse` made of them: a millisecond, or nothing. */
  datatype HistoryPoint = HistoryPoint(
    ts: Option<int>, sampleTs: Option<int>, power: Field, voltage: Field, current: Field,
    online: Option<bool>, frozen: bool, coverage: Option<Coverage>)

  /** For a stored bucket: how many of its samples were online, of how many. */
  datatype Coverage = Coverage(online: int, samples: int)

  datatype Entry = Entry(ms: int, point: HistoryPoint)

  // ---------------------------------------------------------------- ordering

  /** A point is placed by the bridge tick that took it, and by its own timestamp otherwise. */
  function PlacedMs(p: HistoryPoint): Option<int> {
    if p.sampleTs.Some? then p.sampleTs else p.ts
  }

  ghost function WithMs(points: seq<HistoryPoint>): seq<Entry> {
    if points == [] then []
    else
      var init, last := points[..|points| - 1], points[|points| - 1];
      WithMs(init) + (match PlacedMs(last) case None => [] case Some(ms) => [Entry(ms, last)])
  }

  predicate EntryLe(a: Entry, b: Entry) { a.ms <= b.ms }

  ghost predicate StrictlyOrdered(list: seq<Entry>) {
    forall i, j | 0 <= i < j < |list| :: list[i].ms < list[j].ms
  }

  /** The last entry of `s` at instant `ms`. */
  ghost function LastAt(s: seq<Entry>, ms: int): Option<Entry> {
    if s == [] then None
    else if s[|s| - 1].ms == ms then Some(s[|s| - 1])
    else LastAt(s[..|s| - 1], ms)
  }

  /** One entry for each instant that occurs, in order, each the last one given for it. */
  ghost predicate LastOfEach(s: seq<Entry>, out: seq<Entry>) {
    && StrictlyOrdered(out)
    && (forall k | 0 <= k < |out| :: LastAt(s, out[k].ms) == Some(out[k]))
    && (forall ms :: LastAt(s, ms).Some? ==> exists k :: 0 <= k < |out| && out[k].ms == ms)
  }

  ghost predicate IsOrdered(points: seq<HistoryPoint>, list: seq<Entry>) {
    LastOfEach(WithMs(points), list)
  }

  lemma {:induction false} LastAtFilter(s: seq<Entry>, ms: int)
    ensures var f := Filter((e: Entry) => e.ms == ms, s);
            LastAt(s, ms) == if f == [] then None else Some(f[|f| - 1])
  {
    if s != [] {
      var n := |s| - 1;
      LastAtFilter(s[..n], ms);
      assert s == s[..n] + [s[n]];
      FilterAppend((e: Entry) => e.ms == ms, s[..n], [s[n]]);
      assert Filter((e: Entry) => e.ms == ms, [s[n]][1..]) == [];
    }
  }

  lemma {:induction false} OneInstantIsSorted(f: seq<Entry>, ms: int)
    requires forall i | 0 <= i < |f| :: f[i].ms == ms
    ensures Sort(EntryLe, f) == f
  {
    SortOfSorted(EntryLe, f);
  }

  /** Sorting is stable, so it keeps which entry is the last at each instant. */
  lemma {:induction false} SortKeepsLast(s: seq<Entry>, ms: int)
    ensures LastAt(Sort(EntryLe, s), ms) == LastAt(s, ms)
  {
    var at := (e: Entry) => e.ms == ms;
    var f := Filter(at, s);
    assert forall i | 0 <= i < |f| :: f[i].ms == ms by {
      FilterMembers(at, s);
      assert forall i | 0 <= i < |f| :: f[i] in f;
    }
    OneInstantIsSorted(f, ms);
    assert Filter(at, Sort(EntryLe, s)) == f by { FilterSort(EntryLe, at, s); }
    LastAtFilter(s, ms);
    LastAtFilter(Sort(EntryLe, s), ms);
  }

  lemma {:induction false} LastAtSingleton(s: seq<Entry>, e: Entry)
    ensures forall ms :: LastAt(s + [e], ms) == if e.ms == ms then Some(e) else LastAt(s, ms)
  {
    assert (s + [e])[..|s|] == s;
  }

  lemma {:induction false} WithMsHolds(points: seq<HistoryPoint>, e: Entry)
    ensures e in WithMs(points) <==> e.point in points && Some(e.ms) == PlacedMs(e.point)
  {
    if points != [] {
      var init, last := points[..|points| - 1], points[|points| - 1];
      WithMsHolds(init, e);
      assert points == init + [last];
    }
  }

  lemma {:induction false} LastAtIsHeld(s: seq<Entry>, ms: int)
    ensures LastAt(s, ms).Some? ==> LastAt(s, ms).value in s && LastAt(s, ms).value.ms == ms
    ensures (exists e :: e in s && e.ms == ms) ==> LastAt(s, ms).Some?
  {
    if s != [] {
      LastAtIsHeld(s[..|s| - 1], ms);
      assert s == s[..|s| - 1] + [s[|s| - 1]];
    }
  }

  /**
   The ordered entries are points, each at its tick or else at
   its own timestamp, and no instant of a point is left out.
   */
  lemma {:induction false} OrderedHoldsThePoints(points: seq<HistoryPoint>, list: seq<Entry>)
    requires IsOrdered(points, list)
    ensures forall e | e in list ::
              e.point in points && Some(e.ms) == if e.point.sampleTs.Some? then e.point.sampleTs else e.point.ts
    ensures forall p | p in points && (p.sampleTs.Some? || p.ts.Some?) ::
              exists e | e in list :: Some(e.ms) == if p.sampleTs.Some? then p.sampleTs else p.ts
  {
    forall e | e in list ensures e.point in points && Some(e.ms) == PlacedMs(e.point) {
      LastAtIsHeld(WithMs(points), e.ms);
      WithMsHolds(points, e);
    }
    forall p | p in points && (p.sampleTs.Some? || p.ts.Some?)
      ensures exists e | e in list :: Some(e.ms) == PlacedMs(p)
    {
      var own := Entry(PlacedMs(p).value, p);
      WithMsHolds(points, own);
      LastAtIsHeld(WithMs(points), own.ms);
      var k :| 0 <= k < |list| && list[k].ms == own.ms;
      assert list[k] in list;
    }
  }

  method Ordered(points: seq<HistoryPoint>) returns (out: seq<Entry>)
    ensures IsOrdered(points, out)
  {
    var withMs: seq<Entry> := [];
    for i := 0 to |points|
      invariant withMs == WithMs(points[..i])
    {
      assert points[..i + 1][..i] == points[..i];
      var ms := PlacedMs(points[i]);
      if ms.Some? {
        withMs := withMs + [Entry(ms.value, points[i])];
      }
    }
    assert points[..|points|] == points;
    var sorted := Sort(EntryLe, withMs);
    SortSorted(EntryLe, withMs);
    forall ms { SortKeepsLast(withMs, ms); }
    out := DropRepeats(sorted);
  }

  /** Of entries at one instant, the later one wins. */
  method DropRepeats(sorted: seq<Entry>) returns (out: seq<Entry>)
    requires SortedBy(EntryLe, sorted)
    ensures LastOfEach(sorted, out)
  {
    out := [];
    for i := 0 to |sorted|
      invariant DroppedUpTo(sorted, i, out)
    {
      var entry := sorted[i];
      ghost var before := out;
      if |out| > 0 && out[|out| - 1].ms == entry.ms {
        out := out[|out| - 1 := entry];
      } else {
        out := out + [entry];
      }
      DropNext(sorted, i, before, out);
    }
    assert sorted[..|sorted|] == sorted;
  }

  ghost predicate DroppedUpTo(sorted: seq<Entry>, i: int, out: seq<Entry>)
    requires 0 <= i <= |sorted|
  {
    && LastOfEach(sorted[..i], out)
    && (forall k | 0 <= k < |out| :: i > 0 && out[k].ms <= sorted[i - 1].ms)
  }

  lemma {:induction false} DropNext(sorted: seq<Entry>, i: int, before: seq<Entry>, out: seq<Entry>)
    requires SortedBy(EntryLe, sorted) && 0 <= i < |sorted| && DroppedUpTo(sorted, i, before)
    requires out == if |before| > 0 && before[|before| - 1].ms == sorted[i].ms
                    then before[|before| - 1 := sorted[i]] else before + [sorted[i]]
    ensures DroppedUpTo(sorted, i + 1, out)
  {
    assert i > 0 ==> EntryLe(sorted[i - 1], sorted[i]);
    assert sorted[..i + 1] == sorted[..i] + [sorted[i]];
    KeepsEach(sorted[..i], before, sorted[i], out);
  }

  lemma {:induction false} KeepsEveryInstant(s: seq<Entry>, before: seq<Entry>, e: Entry, out: seq<Entry>, ms: int)
    requires LastOfEach(s, before)
    requires out == if |before| > 0 && before[|before| - 1].ms == e.ms then before[|before| - 1 := e] else before + [e]
    requires LastAt(s + [e], ms).Some?
    ensures exists k :: 0 <= k < |out| && out[k].ms == ms
  {
    LastAtSingleton(s, e);
    if ms == e.ms {
      assert out[|out| - 1].ms == ms;
    } else {
      var k :| 0 <= k < |before| && before[k].ms == ms;
      assert out[k].ms == ms;
    }
  }

  lemma {:induction false} KeepsEach(s: seq<Entry>, before: seq<Entry>, e: Entry, out: seq<Entry>)
    requires LastOfEach(s, before)
    requires forall k | 0 <= k < |before| :: before[k].ms <= e.ms
    requires out == if |before| > 0 && before[|before| - 1].ms == e.ms then before[|before| - 1 := e] else before + [e]
    ensures LastOfEach(s + [e], out)
  {
    LastAtSingleton(s, e);
    forall ms | LastAt(s + [e], ms).Some? ensures exists k :: 0 <= k < |out| && out[k].ms == ms {
      KeepsEveryInstant(s, before, e, out, ms);
    }
  }

  // ---------------------------------------------------------------- held readings

  const FROZEN_MIN_SAMPLES := 180
  const FROZEN_MIN_DURATION_MS := 10500000
  /** `REGISTER_STALL.afterMs`: half an hour. */
  const STALL_AFTER_MS := 1800000

  datatype FrozenRun = FrozenRun(fromMs: int, toMs: int, samples: int, power: real, voltage: Field, current: Field)

  datatype RunKey = RunKey(power: real, voltage: Field, current: Field)

  /** What must repeat for a reading to count as held; none when the point is not a candidate. */
  function KeyOf(p: HistoryPoint, shared: bool): Option<RunKey> {
    if p.power.Num? && p.power.v > 0.0 && (shared || !p.voltage.Absent?)
    then Some(RunKey(p.power.v, if shared then Absent else p.voltage, p.current))
    else None
  }

  /** A maximal stretch of one repeated key. */
  ghost predicate Block(list: seq<Entry>, a: int, b: int, shared: bool) {
    && 0 <= a < b <= |list|
    && KeyOf(list[a].point, shared).Some?
    && (forall k | a <= k < b :: KeyOf(list[k].point, shared) == KeyOf(list[a].point, shared))
    && (a > 0 ==> KeyOf(list[a - 1].point, shared) != KeyOf(list[a].point, shared))
    && (b < |list| ==> KeyOf(list[b].point, shared) != KeyOf(list[a].point, shared))
  }

  ghost predicate Flagged(list: seq<Entry>, a: int, b: int)
    requires 0 <= a <= b <= |list|
  {
    exists k :: a <= k < b && list[k].point.frozen
  }

  ghost predicate LongEnough(list: seq<Entry>, a: int, b: int)
    requires 0 <= a < b <= |list|
  {
    var held := list[b - 1].ms - list[a].ms;
    (Flagged(list, a, b) && held >= STALL_AFTER_MS) || (b - a >= FROZEN_MIN_SAMPLES && held >= FROZEN_MIN_DURATION_MS)
  }

  ghost predicate HeldBlock(list: seq<Entry>, a: int, b: int, shared: bool) {
    Block(list, a, b, shared) && LongEnough(list, a, b)
  }

  function RunOf(list: seq<Entry>, a: int, b: int, shared: bool): FrozenRun
    requires 0 <= a < b <= |list| && list[a].point.power.Num?
  {
    var p := list[a].point;
    FrozenRun(list[a].ms, list[b - 1].ms, b - a, p.power.v, if shared then Absent else p.voltage, p.current)
  }

  /** `runs` are exactly the long enough maximal blocks, in order; `at` says where each lies. */
  ghost predicate AreTheRuns(list: seq<Entry>, shared: bool, runs: seq<FrozenRun>, at: seq<(int, int)>) {
    && |at| == |runs|
    && (forall k | 0 <= k < |runs| ::
       HeldBlock(list, at[k].0, at[k].1, shared) && runs[k] == RunOf(list, at[k].0, at[k].1, shared))
    && (forall k, l | 0 <= k < l < |at| :: at[k].1 <= at[l].0)
    && (forall a, b | HeldBlock(list, a, b, shared) :: (a, b) in at)
  }

  /** A reading that can be held: power above nothing, and a voltage of its own unless it shares another's. */
  ghost predicate Holdable(p: HistoryPoint, shared: bool) {
    p.power.Num? && p.power.v > 0.0 && (shared || p.voltage != Absent)
  }

  ghost predicate Repeats(p: HistoryPoint, q: HistoryPoint, shared: bool) {
    Holdable(p, shared) && p.power == q.power && p.current == q.current && (shared || p.voltage == q.voltage)
  }

  /**
   A stretch of readings that repeat, as long as it goes: at least 180 of them over at least 175 minutes, or over
   half an hour with one the bridge flagged.
   */
  ghost predicate HeldStill(list: seq<Entry>, a: int, b: int, shared: bool) {
    && 0 <= a < b <= |list| && Holdable(list[a].point, shared)
    && (forall k | a <= k < b :: Repeats(list[k].point, list[a].point, shared))
    && (a > 0 ==> !Repeats(list[a - 1].point, list[a].point, shared))
    && (b < |list| ==> !Repeats(list[b].point, list[a].point, shared))
    && var held := list[b - 1].ms - list[a].ms;
       || (held >= 30 * 60000 && exists k :: a <= k < b && list[k].point.frozen)
       || (b - a >= 180 && held >= 175 * 60000)
  }

  ghost predicate TellsStretch(r: FrozenRun, list: seq<Entry>, a: int, b: int, shared: bool)
    requires 0 <= a < b <= |list|
  {
    && r.fromMs == list[a].ms && r.toMs == list[b - 1].ms && r.samples == b - a
    && Num(r.power) == list[a].point.power && r.current == list[a].point.current
    && r.voltage == if shared then Absent else list[a].point.voltage
  }

  lemma {:induction false} KeysRepeat(p: HistoryPoint, q: HistoryPoint, shared: bool)
    ensures KeyOf(p, shared).Some? <==> Holdable(p, shared)
    ensures KeyOf(q, shared).Some? ==> (KeyOf(p, shared) == KeyOf(q, shared) <==> Repeats(p, q, shared))
  {}

  lemma {:induction false} HeldBlocksAreStill(list: seq<Entry>, a: int, b: int, shared: bool)
    ensures HeldBlock(list, a, b, shared) <==> HeldStill(list, a, b, shared)
  {
    if 0 <= a < b <= |list| {
      forall k | 0 <= k < |list| { KeysRepeat(list[k].point, list[a].point, shared); }
    }
  }

  /**
   In figures: the runs are exactly the stretches of readings
   held still, each with its ends, its count and what it held.
   */
  lemma {:induction false} RunsAreHeldStill(list: seq<Entry>, shared: bool, runs: seq<FrozenRun>, at: seq<(int, int)>)
    requires AreTheRuns(list, shared, runs, at)
    ensures forall a, b :: HeldStill(list, a, b, shared) <==> (a, b) in at
    ensures forall k | 0 <= k < |runs| ::
              0 <= at[k].0 < at[k].1 <= |list| && TellsStretch(runs[k], list, at[k].0, at[k].1, shared)
  {
    forall a, b ensures HeldStill(list, a, b, shared) <==> (a, b) in at {
      HeldBlocksAreStill(list, a, b, shared);
      if (a, b) in at { var k :| 0 <= k < |at| && at[k] == (a, b); }
    }
  }

  /** Only online samples, in order: an offline one is skipped, not a break. */
  ghost function Online(list: seq<Entry>): seq<Entry> {
    Filter((e: Entry) => e.point.online != Some(false), list)
  }

  lemma {:induction false} OnlineOrdered(list: seq<Entry>)
    requires StrictlyOrdered(list)
    ensures StrictlyOrdered(Online(list))
  {
    if list != [] {
      OnlineOrdered(list[1..]);
      FilterMembers((e: Entry) => e.point.online != Some(false), list[1..]);
      var f := Online(list[1..]);
      forall j | 0 <= j < |f| ensures list[0].ms < f[j].ms { assert f[j] in list[1..]; }
    }
  }

  method DetectFrozenRuns(points: seq<HistoryPoint>, shared: bool)
    returns (runs: seq<FrozenRun>, ghost all: seq<Entry>, ghost list: seq<Entry>, ghost at: seq<(int, int)>)
    ensures IsOrdered(points, all) && list == Online(all) && StrictlyOrdered(list)
    ensures AreTheRuns(list, shared, runs, at)
    ensures forall k | 0 <= k < |runs| :: runs[k].fromMs < runs[k].toMs && runs[k].power > 0.0
  {
    var ordered := Ordered(points);
    all := ordered;
    OnlineOrdered(ordered);
    var online := Filter((e: Entry) => e.point.online != Some(false), ordered);
    list := online;
    runs, at := ScanRuns(online, shared);
    forall k | 0 <= k < |runs| ensures runs[k].fromMs < runs[k].toMs && runs[k].power > 0.0 {
      assert HeldBlock(list, at[k].0, at[k].1, shared);
    }
  }

  method ScanRuns(list: seq<Entry>, shared: bool) returns (runs: seq<FrozenRun>, ghost at: seq<(int, int)>)
    ensures AreTheRuns(list, shared, runs, at)
  {
    runs, at := [], [];
    var start := 0;
    var flagged := |list| > 0 && list[0].point.frozen;
    var i := 1;
    while i <= |list|
      invariant 0 <= start < i <= |list| + 1
      invariant i == |list| + 1 ==> start == |list|
      invariant i <= |list| ==> Stretch(list, shared, start, i) && flagged == Flagged(list, start, i)
      invariant RunsUpTo(list, shared, runs, at, start)
    {
      var startKey := KeyOf(list[start].point, shared);
      if i < |list| && startKey.Some? && KeyOf(list[i].point, shared) == startKey {
        if list[i].point.frozen { flagged := true; }
        i := i + 1;
        continue;
      }
      var samples := i - start;
      var held := list[i - 1].ms - list[start].ms;
      StretchEnds(list, shared, runs, at, start, i);
      if startKey.Some? && ((flagged && held >= STALL_AFTER_MS)
        || (samples >= FROZEN_MIN_SAMPLES && held >= FROZEN_MIN_DURATION_MS)) {
        assert LongEnough(list, start, i);
        runs := runs + [RunOf(list, start, i, shared)];
        at := at + [(start, i)];
      }
      start := i;
      flagged := i < |list| && list[i].point.frozen;
      i := i + 1;
    }
    UpToTheEnd(list, shared, runs, at, start);
  }

  /** The readings from `start` to `i` repeat one key, begun there. */
  ghost predicate Stretch(list: seq<Entry>, shared: bool, start: int, i: int) {
    && 0 <= start < i <= |list|
    && (forall k | start <= k < i :: KeyOf(list[k].point, shared) == KeyOf(list[start].point, shared))
    && (start == i - 1 || KeyOf(list[start].point, shared).Some?)
    && (0 < start && KeyOf(list[start].point, shared).Some? ==>
          KeyOf(list[start - 1].point, shared) != KeyOf(list[start].point, shared))
  }

  ghost predicate RunsUpTo(list: seq<Entry>, shared: bool, runs: seq<FrozenRun>, at: seq<(int, int)>, start: int) {
    && |at| == |runs|
    && (forall k | 0 <= k < |runs| ::
       HeldBlock(list, at[k].0, at[k].1, shared) && runs[k] == RunOf(list, at[k].0, at[k].1, shared))
    && (forall k, l | 0 <= k < l < |at| :: at[k].1 <= at[l].0)
    && (forall k | 0 <= k < |at| :: at[k].1 <= start)
    && (forall a, b | HeldBlock(list, a, b, shared) && a < start :: (a, b) in at)
  }

  lemma {:induction false} UpToTheEnd(list: seq<Entry>, shared: bool, runs: seq<FrozenRun>, at: seq<(int, int)>,
        start: int)
    requires RunsUpTo(list, shared, runs, at, start) && start == |list|
    ensures AreTheRuns(list, shared, runs, at)
  {
    forall a, b | HeldBlock(list, a, b, shared) ensures (a, b) in at {
      assert a < start;
    }
  }

  /** Once the stretch from `start` ends at `i`, the only block opening in it is that stretch. */
  lemma {:induction false} BlocksOpeningBy(list: seq<Entry>, shared: bool, start: int, i: int)
    requires Stretch(list, shared, start, i)
    requires i < |list| && KeyOf(list[start].point, shared).Some? ==>
      KeyOf(list[i].point, shared) != KeyOf(list[start].point, shared)
    ensures forall a, b | Block(list, a, b, shared) && start <= a < i :: a == start && b == i
  {
    forall a, b | Block(list, a, b, shared) && start <= a < i ensures a == start && b == i {
      assert forall k | start <= k < i || a <= k < b :: KeyOf(list[k].point, shared) == KeyOf(list[a].point, shared);
    }
  }

  lemma {:induction false} StretchEnds(list: seq<Entry>, shared: bool, runs: seq<FrozenRun>, at: seq<(int, int)>,
        start: int, i: int)
    requires RunsUpTo(list, shared, runs, at, start) && Stretch(list, shared, start, i)
    requires i < |list| && KeyOf(list[start].point, shared).Some? ==>
      KeyOf(list[i].point, shared) != KeyOf(list[start].point, shared)
    ensures if KeyOf(list[start].point, shared).Some? && LongEnough(list, start, i)
            then RunsUpTo(list, shared, runs + [RunOf(list, start, i, shared)], at + [(start, i)], i)
            else RunsUpTo(list, shared, runs, at, i)
  {
    BlocksOpeningBy(list, shared, start, i);
    if KeyOf(list[start].point, shared).Some? && LongEnough(list, start, i) {
      assert HeldBlock(list, start, i, shared);
      var more := at + [(start, i)];
      assert more[|at|] == (start, i);
      forall a, b | HeldBlock(list, a, b, shared) && a < i ensures (a, b) in more {
        assert a < start ==> (a, b) in at;
      }
    } else {
      forall a, b | HeldBlock(list, a, b, shared) && a < i ensures (a, b) in at {
        assert a < start;
      }
    }
  }

  // ---------------------------------------------------------------- placing samples in slots

  datatype SlotQuality = Measured | Interpolated | Live | Frozen | Offline | Outlier | Missing
  datatype SeriesParam = Power | Voltage | Current
  datatype Bound = Bound(min: real, max: real)

  datatype Slot = Slot(
    t: int, value: Option<real>, raw: Field, readingTs: Option<int>, quality: SlotQuality,
    imputedFrom: Option<SlotQuality>, coverage: Option<Coverage>)

  function FieldOf(p: HistoryPoint, param: SeriesParam): Field {
    match param case Power => p.power case Voltage => p.voltage case Current => p.current
  }

  predicate InARun(ms: int, runs: seq<FrozenRun>) {
    exists r :: r in runs && r.fromMs <= ms <= r.toMs
  }

  /** The slot at `t` carrying this sample. */
  function Classify(t: int, e: Entry, param: SeriesParam, bound: Option<Bound>, runs: seq<FrozenRun>): Slot {
    var v := FieldOf(e.point, param);
    var bare := Slot(t, None, v, e.point.ts, Offline, None, e.point.coverage);
    if e.point.online == Some(false) then bare
    else if v.Absent? then bare.(quality := Missing)
    else if v.NonFinite? then bare.(quality := Outlier)
    else if bound.Some? && (v.v < bound.value.min || v.v > bound.value.max) then bare.(quality := Outlier)
    else if e.point.frozen || InARun(e.ms, runs) then bare.(quality := Frozen, value := Some(v.v))
    else bare.(quality := Measured, value := Some(v.v))
  }

  function Min(a: int, b: int): int { if a < b then a else b }
  function Max(a: int, b: int): int { if a < b then b else a }

  ghost predicate NonDecreasing(fs: seq<int>) {
    forall i, j | 0 <= i < j < |fs| :: fs[i] <= fs[j]
  }

  /** The placement law: a sample's own slot, or the next free one, but never more than two slots late. */
  ghost function Place(fs: seq<int>, j: nat): int
    requires j < |fs|
  {
    if j == 0 then fs[0] else Min(fs[j] + 2, Max(fs[j], Place(fs, j - 1) + 1))
  }

  ghost function OwnSlots(list: seq<Entry>, stepMs: int): (fs: seq<int>)
    requires stepMs > 0
    ensures |fs| == |list| && forall j | 0 <= j < |list| :: fs[j] == list[j].ms / stepMs
  {
    seq(|list|, j requires 0 <= j < |list| => list[j].ms / stepMs)
  }

  /** Where sample `j` is written; none when it falls before the grid. The end of the grid holds what runs past it. */
  ghost function IndexOf(fs: seq<int>, startSlot: int, length: int, j: nat): Option<int>
    requires j < |fs|
  {
    var place := Place(fs, j);
    if place < startSlot then None else Some(Min(place - startSlot, length - 1))
  }

  /** The last of the first `n` samples written to slot `i`. */
  ghost function LastWritten(fs: seq<int>, startSlot: int, length: int, n: nat, i: int): (r: Option<int>)
    requires n <= |fs|
    ensures r.Some? ==> 0 <= r.value < n && IndexOf(fs, startSlot, length, r.value) == Some(i)
    ensures forall j | 0 <= j < n && IndexOf(fs, startSlot, length, j) == Some(i) :: r.Some? && j <= r.value
  {
    if n == 0 then None
    else if IndexOf(fs, startSlot, length, n - 1) == Some(i) then Some(n - 1)
    else LastWritten(fs, startSlot, length, n - 1, i)
  }

  function EmptySlot(t: int): Slot { Slot(t, None, Absent, None, Missing, None, None) }

  function FloorDiv(a: int, step: int): int
    requires step > 0
  {
    a / step
  }

  function CeilDiv(a: int, step: int): int
    requires step > 0
  {
    -((-a) / step)
  }

  datatype Grid = Grid(startSlot: int, length: nat, stepMs: int, param: SeriesParam, bound: Option<Bound>,
    runs: seq<FrozenRun>) {
    function TimeOf(i: int): int { (startSlot + i) * stepMs }

    /** Slot `i` after the first `n` samples: the last of them written there, or `missing`. */
    ghost function SlotAfter(list: seq<Entry>, n: nat, i: int): Slot
      requires n <= |list| && stepMs > 0
    {
      var j := LastWritten(OwnSlots(list, stepMs), startSlot, length, n, i);
      if j.None? then EmptySlot(TimeOf(i)) else Classify(TimeOf(i), list[j.value], param, bound, runs)
    }

    ghost predicate Holds(list: seq<Entry>, n: nat, slots: seq<Slot>)
      requires n <= |list| && stepMs > 0
    {
      |slots| == length && forall i | 0 <= i < length :: slots[i] == SlotAfter(list, n, i)
    }
  }

  /**
   What a slot says of the sample it carries: its own figures,
   a value to plot if they can be believed, and why not if not.
   */
  ghost predicate Tells(s: Slot, e: Entry, param: SeriesParam, bound: Option<Bound>, runs: seq<FrozenRun>) {
    var v := match param case Power => e.point.power case Voltage => e.point.voltage case Current => e.point.current;
    var off := e.point.online == Some(false);
    var beyond := v.NonFinite? || (v.Num? && bound.Some? && !(bound.value.min <= v.v <= bound.value.max));
    var held := e.point.frozen || exists r | r in runs :: r.fromMs <= e.ms <= r.toMs;
    && s.raw == v && s.readingTs == e.point.ts && s.coverage == e.point.coverage && s.imputedFrom.None?
    && (s.quality.Offline? <==> off)
    && (s.quality.Missing? <==> !off && v.Absent?)
    && (s.quality.Outlier? <==> !off && beyond)
    && (s.quality.Frozen? <==> !off && v.Num? && !beyond && held)
    && (s.quality.Measured? <==> !off && v.Num? && !beyond && !held)
    && s.value == if s.quality.Frozen? || s.quality.Measured? then Some(v.v) else None
  }

  lemma {:induction false} ClassifyTells(t: int, e: Entry, param: SeriesParam, bound: Option<Bound>,
        runs: seq<FrozenRun>)
    ensures Tells(Classify(t, e, param, bound, runs), e, param, bound, runs)
      && Classify(t, e, param, bound, runs).t == t
  {}

  /** Every slot of the grid tells the last sample written to it, or that there is none. */
  lemma {:induction false} SlotsTellTheirSamples(g: Grid, list: seq<Entry>, slots: seq<Slot>, i: int)
    requires g.stepMs > 0 && g.Holds(list, |list|, slots) && 0 <= i < |slots|
    ensures var j := LastWritten(OwnSlots(list, g.stepMs), g.startSlot, g.length, |list|, i);
            && slots[i].t == (g.startSlot + i) * g.stepMs
            && if j.None? then slots[i] == Slot(slots[i].t, None, Absent, None, Missing, None, None)
               else Tells(slots[i], list[j.value], g.param, g.bound, g.runs)
  {
    var j := LastWritten(OwnSlots(list, g.stepMs), g.startSlot, g.length, |list|, i);
    if j.Some? { ClassifyTells(g.TimeOf(i), list[j.value], g.param, g.bound, g.runs); }
  }

  method AlignToGrid(points: seq<HistoryPoint>, stepMs: int, startMs: int, endMs: int, param: SeriesParam,
                     bound: Option<Bound>, runs: seq<FrozenRun>)
    returns (slots: seq<Slot>, ghost list: seq<Entry>)
    requires stepMs > 0
    ensures IsOrdered(points, list) && NonDecreasing(OwnSlots(list, stepMs))
    ensures |slots| == Max(0, CeilDiv(endMs, stepMs) - FloorDiv(startMs, stepMs))
    ensures Grid(FloorDiv(startMs, stepMs), |slots|, stepMs, param, bound, runs).Holds(list, |list|, slots)
  {
    var ordered := Ordered(points);
    list := ordered;
    OwnSlotsOrdered(ordered, stepMs);
    var startSlot := FloorDiv(startMs, stepMs);
    var length := Max(0, CeilDiv(endMs, stepMs) - startSlot);
    slots := FillGrid(ordered, Grid(startSlot, length, stepMs, param, bound, runs));
  }

  method FillGrid(ordered: seq<Entry>, g: Grid) returns (slots: seq<Slot>)
    requires g.stepMs > 0 && NonDecreasing(OwnSlots(ordered, g.stepMs))
    ensures g.Holds(ordered, |ordered|, slots)
  {
    ghost var fs := OwnSlots(ordered, g.stepMs);
    slots := seq(g.length, i => EmptySlot(g.TimeOf(i)));
    if g.length == 0 { return; }
    var prev: Option<int> := None;
    for n := 0 to |ordered|
      invariant prev == if n == 0 then None else Some(Place(fs, n - 1))
      invariant g.Holds(ordered, n, slots)
    {
      var slot := FloorDiv(ordered[n].ms, g.stepMs);
      PushFollowsLaw(fs, n);
      if prev.Some? && slot <= prev.value && prev.value + 1 - slot <= 2 { slot := prev.value + 1; }
      if prev.Some? && slot <= prev.value { slot := prev.value; }
      prev := Some(slot);
      var index := slot - g.startSlot;
      if index >= 0 {
        var i := Min(index, g.length - 1);
        slots := slots[i := Classify(g.TimeOf(i), ordered[n], g.param, g.bound, g.runs)];
      }
    }
  }

  /** The source's two pushes compute the placement law. */
  lemma {:induction false} PushFollowsLaw(fs: seq<int>, n: nat)
    requires NonDecreasing(fs) && n < |fs|
    ensures n > 0 ==>
              var prev := Place(fs, n - 1);
              Place(fs, n) == if fs[n] > prev then fs[n] else if prev + 1 - fs[n] <= 2 then prev + 1 else prev
  {
    if n > 0 {
      PlaceDisplaced(fs, n - 1);
      assert fs[n - 1] <= fs[n];
    }
  }

  lemma {:induction false} OwnSlotsOrdered(list: seq<Entry>, stepMs: int)
    requires StrictlyOrdered(list) && stepMs > 0
    ensures NonDecreasing(OwnSlots(list, stepMs))
  {
    var fs := OwnSlots(list, stepMs);
    forall i, j | 0 <= i < j < |fs| ensures fs[i] <= fs[j] {
      FloorMonotone(list[i].ms, list[j].ms, stepMs);
    }
  }

  lemma {:induction false} FloorMonotone(a: int, b: int, step: int)
    requires a <= b && step > 0
    ensures a / step <= b / step
  {
    var d := a / step - b / step;
    AtLeastOne(step, d);
    assert step * d == step * (a / step) - step * (b / step);
  }

  lemma {:induction false} AtLeastOne(step: int, d: int)
    requires step > 0
    ensures d >= 1 ==> step * d >= step
  {}

  /** No sample moves back, and none moves forward by more than two slots. */
  lemma {:induction false} PlaceDisplaced(fs: seq<int>, j: nat)
    requires j < |fs|
    ensures fs[j] <= Place(fs, j) <= fs[j] + 2
  {}

  /** Placement keeps the samples in order. */
  lemma {:induction false} PlaceMonotone(fs: seq<int>, i: nat, j: nat)
    requires NonDecreasing(fs) && i <= j < |fs|
    ensures Place(fs, i) <= Place(fs, j)
  {
    if i < j {
      PlaceMonotone(fs, i, j - 1);
      PlaceDisplaced(fs, j - 1);
      assert fs[j - 1] <= fs[j];
    }
  }

  ghost predicate RoomForAll(fs: seq<int>) {
    forall i, j | 0 <= i <= j < |fs| :: fs[i] + (j - i) <= fs[j] + 2
  }

  ghost predicate NoSharedSlot(fs: seq<int>) {
    forall i, j | 0 <= i < j < |fs| :: Place(fs, i) != Place(fs, j)
  }

  lemma {:induction false} CrowdAhead(fs: seq<int>, i: nat, j: nat)
    requires NonDecreasing(fs) && i <= j < |fs|
    requires forall k | i < k <= j :: Place(fs, k - 1) < Place(fs, k)
    ensures fs[i] + (j - i) <= Place(fs, j)
  {
    if i == j {
      PlaceDisplaced(fs, i);
    } else {
      CrowdAhead(fs, i, j - 1);
    }
  }

  /** With room, a sample is pushed exactly as far as some earlier sample's run of ticks reaches. */
  lemma {:induction false} PlaceReaches(fs: seq<int>, j: nat) returns (i: nat)
    requires NonDecreasing(fs) && j < |fs|
    ensures i <= j && Place(fs, j) <= fs[i] + (j - i)
  {
    if j == 0 || Place(fs, j - 1) + 1 <= fs[j] {
      i := j;
    } else {
      i := PlaceReaches(fs, j - 1);
    }
  }

  /** No two samples share a slot exactly when every sample, pushed by all those before it, fits within two slots. */
  lemma {:induction false} NoSharedSlotIffRoom(fs: seq<int>)
    requires NonDecreasing(fs)
    ensures NoSharedSlot(fs) <==> RoomForAll(fs)
  {
    if RoomForAll(fs) {
      forall k | 0 < k < |fs| ensures Place(fs, k - 1) < Place(fs, k) {
        var i := PlaceReaches(fs, k - 1);
        assert fs[i] + (k - i) <= fs[k] + 2;
      }
      forall i, j | 0 <= i < j < |fs| ensures Place(fs, i) != Place(fs, j) {
        PlaceMonotone(fs, i, j - 1);
        assert Place(fs, j - 1) < Place(fs, j);
      }
    } else {
      var i, j :| 0 <= i <= j < |fs| && fs[i] + (j - i) > fs[j] + 2;
      if NoSharedSlot(fs) {
        forall k | i < k <= j ensures Place(fs, k - 1) < Place(fs, k) {
          PlaceMonotone(fs, k - 1, k);
        }
        CrowdAhead(fs, i, j);
        PlaceDisplaced(fs, j);
      }
    }
  }

  // ---------------------------------------------------------------- short gaps and gap windows

  predicate IsGap(s: Slot) { s.quality.Offline? || s.quality.Missing? || s.quality.Outlier? }

  /** A maximal stretch of gap slots. */
  ghost predicate GapRun(slots: seq<Slot>, a: int, b: int) {
    && 0 <= a < b <= |slots|
    && (forall k | a <= k < b :: IsGap(slots[k]))
    && (a > 0 ==> !IsGap(slots[a - 1]))
    && (b < |slots| ==> !IsGap(slots[b]))
  }

  predicate Bracketed(slots: seq<Slot>, a: int, b: int) {
    && 0 < a <= b < |slots|
    && slots[a - 1].quality.Measured? && (slots[b].quality.Measured? || slots[b].quality.Live?)
    && slots[a - 1].value.Some? && slots[b].value.Some?
  }

  ghost predicate InTimeOrder(slots: seq<Slot>) {
    forall i, j | 0 <= i < j < |slots| :: slots[i].t < slots[j].t
  }

  /** The value at `t` on the straight line from `left` to `right`. */
  function OnLine(left: Slot, right: Slot, t: int): real
    requires left.value.Some? && right.value.Some? && left.t < right.t
  {
    left.value.value + ((right.value.value - left.value.value) * (t - left.t) as real) / (right.t - left.t) as real
  }

  ghost predicate Bridged(slots: seq<Slot>, a: int, b: int, k: int, s: Slot)
    requires InTimeOrder(slots) && Bracketed(slots, a, b) && a <= k < b
  {
    && s.quality.Interpolated? && s.imputedFrom == Some(slots[k].quality)
    && s.value == Some(OnLine(slots[a - 1], slots[b], slots[k].t))
    && s == slots[k].(value := s.value, quality := s.quality, imputedFrom := s.imputedFrom)
  }

  /** Outside the short bracketed gap runs nothing changes; inside one every slot is on the line across it. */
  ghost predicate Imputed(slots: seq<Slot>, maxSlots: int, out: seq<Slot>)
    requires InTimeOrder(slots)
  {
    && |out| == |slots|
    && (forall k | 0 <= k < |slots| && !IsGap(slots[k]) :: out[k] == slots[k])
    && (forall a, b, k | GapRun(slots, a, b) && a <= k < b ::
          if b - a <= maxSlots && Bracketed(slots, a, b) then Bridged(slots, a, b, k, out[k]) else out[k] == slots[k])
  }

  /** A slot with no reading to go by. */
  predicate NoReading(s: Slot) { s.quality in {Offline, Missing, Outlier} }

  /** A longest stretch of them, with a reading before it and a reading or the live tail after it. */
  ghost predicate Between(slots: seq<Slot>, a: int, b: int) {
    && 0 < a < b < |slots| && (forall k | a <= k < b :: NoReading(slots[k]))
    && slots[a - 1].quality == Measured && slots[b].quality in {Measured, Live}
    && slots[a - 1].value.Some? && slots[b].value.Some?
  }

  /**
   A slot that lies so, in no more than `maxSlots`, is marked interpolated, keeps what it was and all else, and gets a
   value on the line from the reading before to the one after; every other slot stands as it was.
   */
  lemma {:induction false} BridgedExactly(slots: seq<Slot>, maxSlots: int, out: seq<Slot>, k: int)
    requires InTimeOrder(slots) && Imputed(slots, maxSlots, out) && 0 <= k < |slots|
    ensures (forall a, b | a <= k < b && b - a <= maxSlots :: !Between(slots, a, b)) ==> out[k] == slots[k]
    ensures forall a, b | Between(slots, a, b) && a <= k < b && b - a <= maxSlots ::
              && out[k].value.Some?
              && out[k] == slots[k].(quality := Interpolated, imputedFrom := Some(slots[k].quality),
                 value := out[k].value)
              && var l, r := slots[a - 1], slots[b];
                 (out[k].value.value - l.value.value) * (r.t - l.t) as real
                   == (r.value.value - l.value.value) * (slots[k].t - l.t) as real
  {
    forall a, b | Between(slots, a, b) && a <= k < b && b - a <= maxSlots
      ensures Bridged(slots, a, b, k, out[k]) && Bracketed(slots, a, b)
      ensures var l, r := slots[a - 1], slots[b];
              (OnLine(l, r, slots[k].t) - l.value.value) * (r.t - l.t) as real
                == (r.value.value - l.value.value) * (slots[k].t - l.t) as real
    {
      assert GapRun(slots, a, b);
      OnLineBetween(slots[a - 1], slots[b], slots[k].t);
    }
    if IsGap(slots[k]) {
      var a, b := RunAround(slots, k);
      assert Bracketed(slots, a, b) ==> Between(slots, a, b);
    }
  }

  method ImputeShortGaps(slots: seq<Slot>, stepMs: int, maxImputeMs: int) returns (out: seq<Slot>)
    requires stepMs > 0 && InTimeOrder(slots)
    ensures Imputed(slots, FloorDiv(maxImputeMs, stepMs), out)
  {
    out := slots;
    var maxSlots := FloorDiv(maxImputeMs, stepMs);
    if maxSlots < 1 { return; }
    var i := 0;
    while i < |out|
      invariant 0 <= i <= |out| == |slots|
      invariant 0 < i < |slots| ==> !IsGap(slots[i - 1]) || !IsGap(slots[i])
      invariant forall k | i <= k < |slots| :: out[k] == slots[k]
      invariant forall k | 0 <= k < |slots| && !IsGap(slots[k]) :: out[k] == slots[k]
      invariant forall a, b, k | GapRun(slots, a, b) && a <= k < b && a < i ::
                  if b - a <= maxSlots && Bracketed(slots, a, b) then Bridged(slots, a, b, k, out[k])
                    else out[k] == slots[k]
    {
      if !IsGap(out[i]) {
        i := i + 1;
        continue;
      }
      var j := i;
      while j < |out| && IsGap(out[j])
        invariant i <= j <= |out|
        invariant forall k | i <= k < j :: IsGap(slots[k])
      {
        j := j + 1;
      }
      assert GapRun(slots, i, j);
      RunsFrom(slots, i, j);
      if j - i <= maxSlots && Bracketed(out, i, j) {
        out := BridgeRun(slots, out, i, j);
      }
      i := j;
    }
  }

  /** No other run begins within a run. */
  lemma {:induction false} RunsFrom(slots: seq<Slot>, i: int, j: int)
    requires GapRun(slots, i, j)
    ensures forall a, b | GapRun(slots, a, b) && i <= a < j :: a == i && b == j
    ensures forall a, b | GapRun(slots, a, b) && a < i :: b < i
  {
    forall a, b | GapRun(slots, a, b) && i <= a < j ensures a == i && b == j {
      assert forall k | i <= k < j || a <= k < b :: IsGap(slots[k]);
    }
    forall a, b | GapRun(slots, a, b) && a < i ensures b < i {
      assert forall k | i <= k < j || a <= k < b :: IsGap(slots[k]);
    }
  }

  method BridgeRun(ghost slots: seq<Slot>, before: seq<Slot>, i: int, j: int) returns (out: seq<Slot>)
    requires InTimeOrder(slots) && GapRun(slots, i, j) && Bracketed(slots, i, j)
    requires |before| == |slots| && Bracketed(before, i, j) && before[i - 1] == slots[i - 1] && before[j] == slots[j]
    requires forall k | i <= k < j :: before[k] == slots[k]
    ensures |out| == |before|
    ensures forall k | 0 <= k < |out| && !(i <= k < j) :: out[k] == before[k]
    ensures forall k | i <= k < j :: Bridged(slots, i, j, k, out[k])
  {
    out := before;
    for k := i to j
      invariant |out| == |before|
      invariant forall l | 0 <= l < |out| && !(i <= l < k) :: out[l] == before[l]
      invariant forall l | i <= l < k :: Bridged(slots, i, j, l, out[l])
    {
      var value := OnLine(before[i - 1], before[j], out[k].t);
      out := out[k := out[k].(value := Some(value), quality := Interpolated, imputedFrom := Some(out[k].quality))];
    }
  }

  /** Every gap slot lies in a maximal run. */
  lemma {:induction false} RunAround(slots: seq<Slot>, k: int) returns (a: int, b: int)
    requires 0 <= k < |slots| && IsGap(slots[k])
    ensures GapRun(slots, a, b) && a <= k < b
  {
    a, b := k, k + 1;
    while a > 0 && IsGap(slots[a - 1])
      invariant 0 <= a <= k && forall l | a <= l <= k :: IsGap(slots[l])
    {
      a := a - 1;
    }
    while b < |slots| && IsGap(slots[b])
      invariant k < b <= |slots| && forall l | a <= l < b :: IsGap(slots[l])
    {
      b := b + 1;
    }
  }

  lemma {:induction false} ImputedStaysInOrder(slots: seq<Slot>, maxSlots: int, out: seq<Slot>)
    requires InTimeOrder(slots) && Imputed(slots, maxSlots, out)
    ensures InTimeOrder(out)
    ensures forall k | 0 <= k < |slots| :: out[k].t == slots[k].t && (IsGap(out[k]) ==> out[k] == slots[k])
  {
    forall k | 0 <= k < |slots| ensures out[k].t == slots[k].t && (IsGap(out[k]) ==> out[k] == slots[k]) {
      if IsGap(slots[k]) {
        var a, b := RunAround(slots, k);
      }
    }
  }

  /** A run still a gap afterwards is a whole run of the input that was not bridged. */
  lemma {:induction false} GapsLeft(slots: seq<Slot>, maxSlots: int, out: seq<Slot>, a: int, b: int)
    requires InTimeOrder(slots) && Imputed(slots, maxSlots, out)
    ensures GapRun(out, a, b) <==> GapRun(slots, a, b) && !(b - a <= maxSlots && Bracketed(slots, a, b))
  {
    ImputedStaysInOrder(slots, maxSlots, out);
    if GapRun(out, a, b) {
      var c, d := RunAround(slots, a);
      assert forall k | c <= k < d :: out[k] == slots[k];
      assert forall k | c <= k < d || a <= k < b :: IsGap(slots[k]) && IsGap(out[k]);
    }
  }

  /** Bridging twice is bridging once. */
  lemma {:induction false} ImputeIsIdempotent(slots: seq<Slot>, maxSlots: int, once: seq<Slot>, twice: seq<Slot>)
    requires InTimeOrder(slots) && Imputed(slots, maxSlots, once)
    requires InTimeOrder(once) && Imputed(once, maxSlots, twice)
    ensures twice == once
  {
    ImputedStaysInOrder(slots, maxSlots, once);
    forall k | 0 <= k < |once| ensures twice[k] == once[k] {
      if IsGap(once[k]) {
        var a, b := RunAround(once, k);
        GapsLeft(slots, maxSlots, once, a, b);
      }
    }
  }

  /** A bridged value lies between its two neighbours and has their slope. */
  lemma {:induction false} OnLineBetween(left: Slot, right: Slot, t: int)
    requires left.value.Some? && right.value.Some? && left.t < t < right.t
    ensures var v, l, r := OnLine(left, right, t), left.value.value, right.value.value;
            && (v - l) * (right.t - left.t) as real == (r - l) * (t - left.t) as real
            && (l <= r ==> l <= v <= r) && (r <= l ==> r <= v <= l)
  {
    var l, r := left.value.value, right.value.value;
    Proportion(r - l, (t - left.t) as real, (right.t - left.t) as real);
  }

  lemma {:induction false} Proportion(d: real, x: real, w: real)
    requires 0.0 < x < w
    ensures (d * x) / w * w == d * x
    ensures 0.0 <= d ==> 0.0 <= (d * x) / w <= d
    ensures d <= 0.0 ==> d <= (d * x) / w <= 0.0
  {
    var r := x / w;
    Ratio(x, w);
    assert (d * r) * w == d * (r * w);
    Quotient(d * x, w, d * r);
    Scaled(d, r);
  }

  lemma {:induction false} Ratio(x: real, w: real)
    requires 0.0 < x < w
    ensures 0.0 < x / w < 1.0 && (x / w) * w == x
  {
    var r := x / w;
    assert (1.0 - r) * w == w - x;
    PositiveFactor(1.0 - r, w);
  }

  lemma {:induction false} PositiveFactor(p: real, w: real)
    requires 0.0 < w && 0.0 < p * w
    ensures 0.0 < p
  {}

  lemma {:induction false} Quotient(y: real, w: real, q: real)
    requires 0.0 < w && q * w == y
    ensures y / w == q
  {
    var d := y / w - q;
    assert (y / w) * w == y;
    assert d * w == 0.0;
    assert d == 0.0;
  }

  lemma {:induction false} Scaled(d: real, r: real)
    requires 0.0 < r < 1.0
    ensures 0.0 <= d ==> 0.0 <= d * r <= d
    ensures d <= 0.0 ==> d <= d * r <= 0.0
  {}

  datatype GapWindow = GapWindow(fromMs: int, toMs: int, kind: SlotQuality, slots: int)

  function KindOf(run: seq<Slot>): SlotQuality {
    if exists s :: s in run && s.quality.Offline? then Offline
    else if exists s :: s in run && s.quality.Outlier? then Outlier
    else Missing
  }

  function WindowOf(slots: seq<Slot>, a: int, b: int, stepMs: int): GapWindow
    requires 0 <= a < b <= |slots|
  {
    GapWindow(slots[a].t, slots[b - 1].t + stepMs, KindOf(slots[a..b]), b - a)
  }

  /** `windows` are the gap runs of at least `minSlots`, each once and in order; `at` says where each lies. */
  ghost predicate AreTheWindows(slots: seq<Slot>, stepMs: int, minSlots: int, windows: seq<GapWindow>,
                                at: seq<(int, int)>)
  {
    && |at| == |windows|
    && (forall k | 0 <= k < |at| ::
          GapRun(slots, at[k].0, at[k].1) && at[k].1 - at[k].0 >= minSlots
            && windows[k] == WindowOf(slots, at[k].0, at[k].1, stepMs))
    && (forall k, l | 0 <= k < l < |at| :: at[k].1 < at[l].0)
    && (forall a, b | GapRun(slots, a, b) && b - a >= minSlots :: (a, b) in at)
  }

  /** The window is named by the worst that happened in it, and runs from its first slot to the end of its last. */
  ghost predicate Names(w: GapWindow, slots: seq<Slot>, a: int, b: int, stepMs: int)
    requires 0 <= a < b <= |slots|
  {
    var off, out := exists k :: a <= k < b && slots[k].quality.Offline?, exists k ::
      a <= k < b && slots[k].quality.Outlier?;
    && w.fromMs == slots[a].t && w.toMs == slots[b - 1].t + stepMs && w.slots == b - a
    && w.kind == if off then Offline else if out then Outlier else Missing
  }

  lemma {:induction false} WindowsAreNamed(slots: seq<Slot>, stepMs: int, minSlots: int, windows: seq<GapWindow>,
                                           at: seq<(int, int)>)
    requires AreTheWindows(slots, stepMs, minSlots, windows, at)
    ensures forall k | 0 <= k < |windows| ::
              0 <= at[k].0 < at[k].1 <= |slots| && Names(windows[k], slots, at[k].0, at[k].1, stepMs)
  {
    forall k | 0 <= k < |windows| ensures Names(windows[k], slots, at[k].0, at[k].1, stepMs) {
      WindowIsNamed(slots, at[k].0, at[k].1, stepMs);
    }
  }

  lemma {:induction false} WindowIsNamed(slots: seq<Slot>, a: int, b: int, stepMs: int)
    requires 0 <= a < b <= |slots|
    ensures Names(WindowOf(slots, a, b, stepMs), slots, a, b, stepMs)
  {
    var run := slots[a..b];
    forall k | a <= k < b ensures slots[k] in run { assert run[k - a] == slots[k]; }
    forall s | s in run ensures exists k :: a <= k < b && slots[k] == s {
      var i :| 0 <= i < |run| && run[i] == s;
      assert slots[a + i] == s;
    }
  }

  method GapWindows(slots: seq<Slot>, stepMs: int, minSlots: int) returns (windows: seq<GapWindow>)
    ensures exists at :: AreTheWindows(slots, stepMs, minSlots, windows, at)
  {
    windows := [];
    ghost var at: seq<(int, int)> := [];
    var i := 0;
    while i < |slots|
      invariant 0 <= i <= |slots| && |at| == |windows|
      invariant 0 < i < |slots| ==> !IsGap(slots[i - 1]) || !IsGap(slots[i])
      invariant forall k | 0 <= k < |at| ::
                  GapRun(slots, at[k].0, at[k].1) && at[k].1 - at[k].0 >= minSlots && at[k].1 <= i
                  && windows[k] == WindowOf(slots, at[k].0, at[k].1, stepMs)
      invariant forall k, l | 0 <= k < l < |at| :: at[k].1 < at[l].0
      invariant forall a, b | GapRun(slots, a, b) && b - a >= minSlots && a < i :: (a, b) in at
    {
      if !IsGap(slots[i]) {
        i := i + 1;
        continue;
      }
      var j := i;
      while j < |slots| && IsGap(slots[j])
        invariant i <= j <= |slots|
        invariant forall k | i <= k < j :: IsGap(slots[k])
      {
        j := j + 1;
      }
      assert GapRun(slots, i, j);
      RunsFrom(slots, i, j);
      if j - i >= minSlots {
        windows := windows + [WindowOf(slots, i, j, stepMs)];
        at := at + [(i, j)];
      }
      i := j;
    }
    assert AreTheWindows(slots, stepMs, minSlots, windows, at);
  }

  /**
   On the minute grid no gap between two measured readings goes unexplained: it is bridged whole and
   shows no window, or it stays whole and is exactly one window.
   */
  lemma {:induction false} MinuteGapsAreBridgedOrNamed(slots: seq<Slot>, out: seq<Slot>, windows: seq<GapWindow>,
        at: seq<(int, int)>, a: int, b: int)
    requires InTimeOrder(slots) && Imputed(slots, FloorDiv(120000, 60000), out)
    requires AreTheWindows(out, 60000, 3, windows, at)
    requires GapRun(slots, a, b) && Bracketed(slots, a, b)
    ensures (forall k | a <= k < b :: out[k].quality.Interpolated?) || (forall k | a <= k < b :: out[k] == slots[k])
    ensures (a, b) in at <==> b - a > 2
    ensures forall w | 0 <= w < |at| && at[w].0 < b && a < at[w].1 :: at[w] == (a, b)
  {
    GapsLeft(slots, 2, out, a, b);
    forall w | 0 <= w < |at| && at[w].0 < b && a < at[w].1 ensures at[w] == (a, b) {
      GapsLeft(slots, 2, out, at[w].0, at[w].1);
      RunsFrom(slots, a, b);
      RunsFrom(slots, at[w].0, at[w].1);
    }
  }
}
