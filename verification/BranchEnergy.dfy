/**
 Held readings of one meter, and the energy the legacy integrator counted from them
 (`src/lib/branchEnergy.ts`). All holds here are one meter's, so its id and name are not carried.
 */
module BranchEnergy {
  import opened Wrappers
  import opened Sorting
  import Timeseries

  const DAY_MS := 86400000
  const ONGOING_WITHIN_MS := 300000
  const MERGE_GAP_MS := 600000
  const W_MS_PER_KWH := 3600000000.0

  datatype Hold = Hold(fromMs: int, toMs: int, ongoing: bool, heldW: real, heldV: Timeseries.Field, phantomKwh: real)

  function Max(a: int, b: int): int { if a < b then b else a }

  /** The site's local midnight at or before `nowMs`. */
  function SiteDayStart(nowMs: int, offsetMinutes: int): (start: int)
    ensures start <= nowMs < start + DAY_MS
    ensures (start + offsetMinutes * 60000) % DAY_MS == 0
  {
    var offset := offsetMinutes * 60000;
    (nowMs + offset) / DAY_MS * DAY_MS - offset
  }

  /**
   What the constructors of a hold establish: it reaches past the day's start, and is charged its own span of the day.
   */
  ghost predicate Charged(h: Hold, dayStart: int) {
    && Max(h.fromMs, dayStart) < h.toMs
    && h.phantomKwh == Kwh(h.heldW, h.toMs - Max(h.fromMs, dayStart))
  }

  // ---------------------------------------------------------------- where holds come from

  /** The latest `ts` of any point, which need not be the instant the point is placed at. */
  ghost predicate IsLatest(points: seq<Timeseries.HistoryPoint>, last: Option<int>) {
    && (last.Some? ==> exists p :: p in points && p.ts == last)
    && (forall p | p in points && p.ts.Some? :: last.Some? && p.ts.value <= last.value)
  }

  /** What detection finds: the points in order, the frozen runs among those online, and the latest `ts`. */
  datatype Detected = Detected(all: seq<Timeseries.Entry>, runs: seq<Timeseries.FrozenRun>, at: seq<(int, int)>,
    last: Option<int>)

  ghost predicate DetectedIn(points: seq<Timeseries.HistoryPoint>, shared: bool, d: Detected) {
    && Timeseries.IsOrdered(points, d.all)
    && Timeseries.AreTheRuns(Timeseries.Online(d.all), shared, d.runs, d.at)
    && IsLatest(points, d.last)
  }

  method FrozenToday(points: seq<Timeseries.HistoryPoint>, nowMs: int, dayStart: int, shared: bool)
    returns (found: seq<Hold>, ghost d: Detected)
    ensures forall k | 0 <= k < |found| :: Charged(found[k], dayStart)
    ensures DetectedIn(points, shared, d)
    ensures found == HoldsOf(d.runs, d.last, nowMs, dayStart)
  {
    var latest: Option<int> := None;
    for i := 0 to |points|
      invariant IsLatest(points[..i], latest)
    {
      assert points[..i + 1] == points[..i] + [points[i]];
      var ms := points[i].ts;
      if ms.Some? && (latest.None? || ms.value > latest.value) { latest := ms; }
    }
    assert points[..|points|] == points;
    ghost var all, list, at;
    var runs;
    runs, all, list, at := Timeseries.DetectFrozenRuns(points, shared);
    d := Detected(all, runs, at, latest);
    found := HoldRuns(runs, latest, nowMs, dayStart);
  }

  function Kwh(watts: real, ms: int): real { watts * ms as real / W_MS_PER_KWH }

  method HoldRuns(runs: seq<Timeseries.FrozenRun>, last: Option<int>, nowMs: int, dayStart: int)
    returns (found: seq<Hold>)
    ensures forall k | 0 <= k < |found| :: Charged(found[k], dayStart)
    ensures found == HoldsOf(runs, last, nowMs, dayStart)
  {
    found := [];
    for i := 0 to |runs|
      invariant found == HoldsOf(runs[..i], last, nowMs, dayStart)
      invariant forall k | 0 <= k < |found| :: Charged(found[k], dayStart)
    {
      assert runs[..i + 1][..i] == runs[..i];
      var run := runs[i];
      var ongoing := last == Some(run.toMs) && nowMs - run.toMs <= ONGOING_WITHIN_MS;
      var toMs := if ongoing then nowMs else run.toMs;
      var countedFrom := Max(run.fromMs, dayStart);
      if toMs <= countedFrom { continue; }
      found := found + [Hold(run.fromMs, toMs, ongoing, run.power, run.voltage, Kwh(run.power, toMs - countedFrom))];
    }
    assert runs[..|runs|] == runs;
  }

  /** Each run still reaching into the day, to now if the freeze is still going on. */
  ghost function HoldsOf(runs: seq<Timeseries.FrozenRun>, last: Option<int>, nowMs: int, dayStart: int): seq<Hold> {
    if runs == [] then []
    else
      var n := |runs| - 1;
      var r := runs[n];
      var ongoing := last == Some(r.toMs) && nowMs - r.toMs <= ONGOING_WITHIN_MS;
      var to := if ongoing then nowMs else r.toMs;
      var earlier := HoldsOf(runs[..n], last, nowMs, dayStart);
      if to <= Max(r.fromMs, dayStart) then earlier
      else earlier + [Hold(r.fromMs, to, ongoing, r.power, r.voltage, Kwh(r.power, to - Max(r.fromMs, dayStart)))]
  }

  /**
   `h` is the hold of a run: to now if it ends at the latest point, within five minutes of now, else to its own end.
   */
  ghost predicate IsHoldOf(h: Hold, r: Timeseries.FrozenRun, last: Option<int>, nowMs: int, dayStart: int) {
    && h.fromMs == r.fromMs && h.heldW == r.power && h.heldV == r.voltage && Charged(h, dayStart)
    && (h.ongoing <==> last == Some(r.toMs) && nowMs - r.toMs <= 300000)
    && h.toMs == if h.ongoing then nowMs else r.toMs
  }

  /** The run reaches past its own start and the day's. */
  ghost predicate ReachesTheDay(r: Timeseries.FrozenRun, last: Option<int>, nowMs: int, dayStart: int) {
    var end := if last == Some(r.toMs) && nowMs - r.toMs <= 300000 then nowMs else r.toMs;
    r.fromMs < end && dayStart < end
  }

  /** The holds are those of exactly the runs that reach the day, in order; `at` says which run each is. */
  ghost predicate AreHoldsOf(found: seq<Hold>, runs: seq<Timeseries.FrozenRun>, last: Option<int>, nowMs: int,
                             dayStart: int, at: seq<nat>)
  {
    && |at| == |found|
    && (forall k | 0 <= k < |at| :: at[k] < |runs| && IsHoldOf(found[k], runs[at[k]], last, nowMs, dayStart))
    && (forall k, l | 0 <= k < l < |at| :: at[k] < at[l])
    && (forall i: nat | i < |runs| && ReachesTheDay(runs[i], last, nowMs, dayStart) :: i in at)
  }

  lemma {:induction false} HoldsAreOfTheRuns(runs: seq<Timeseries.FrozenRun>, last: Option<int>, nowMs: int,
        dayStart: int)
    returns (at: seq<nat>)
    ensures AreHoldsOf(HoldsOf(runs, last, nowMs, dayStart), runs, last, nowMs, dayStart, at)
  {
    if runs == [] {
      at := [];
    } else {
      var n := |runs| - 1;
      var before := HoldsAreOfTheRuns(runs[..n], last, nowMs, dayStart);
      var h := LastHold(runs, last, nowMs, dayStart);
      at := OneMoreHold(HoldsOf(runs[..n], last, nowMs, dayStart), runs, last, nowMs, dayStart, before, h);
    }
  }

  lemma {:induction false} OneMoreHold(found: seq<Hold>, runs: seq<Timeseries.FrozenRun>, last: Option<int>, nowMs: int,
                                       dayStart: int, at: seq<nat>, h: Option<Hold>) returns (more: seq<nat>)
    requires runs != [] && AreHoldsOf(found, runs[..|runs| - 1], last, nowMs, dayStart, at)
    requires h.Some? <==> ReachesTheDay(runs[|runs| - 1], last, nowMs, dayStart)
    requires h.Some? ==> IsHoldOf(h.value, runs[|runs| - 1], last, nowMs, dayStart)
    ensures AreHoldsOf(if h.Some? then found + [h.value] else found, runs, last, nowMs, dayStart, more)
  {
    StillHolds(found, runs, last, nowMs, dayStart, at);
    more := at;
    if h.Some? {
      more := at + [|runs| - 1];
      HoldAdded(found, runs, last, nowMs, dayStart, at, h.value);
    }
  }

  /** What the last run adds. */
  lemma {:induction false} LastHold(runs: seq<Timeseries.FrozenRun>, last: Option<int>, nowMs: int, dayStart: int)
    returns (h: Option<Hold>)
    requires runs != []
    ensures h.Some? <==> ReachesTheDay(runs[|runs| - 1], last, nowMs, dayStart)
    ensures h.Some? ==> IsHoldOf(h.value, runs[|runs| - 1], last, nowMs, dayStart)
    ensures HoldsOf(runs, last, nowMs, dayStart) ==
            var before := HoldsOf(runs[..|runs| - 1], last, nowMs, dayStart);
            if h.Some? then before + [h.value] else before
  {
    var r := runs[|runs| - 1];
    var ongoing := last == Some(r.toMs) && nowMs - r.toMs <= ONGOING_WITHIN_MS;
    var to := if ongoing then nowMs else r.toMs;
    var own := Hold(r.fromMs, to, ongoing, r.power, r.voltage, Kwh(r.power, to - Max(r.fromMs, dayStart)));
    h := if ReachesTheDay(r, last, nowMs, dayStart) then Some(own) else None;
  }

  lemma {:induction false} HoldAdded(found: seq<Hold>, runs: seq<Timeseries.FrozenRun>, last: Option<int>, nowMs: int,
                                     dayStart: int, at: seq<nat>, h: Hold)
    requires runs != [] && |at| == |found| && IsHoldOf(h, runs[|runs| - 1], last, nowMs, dayStart)
    requires forall k | 0 <= k < |at| ::
               at[k] < |runs| - 1 && IsHoldOf(found[k], runs[at[k]], last, nowMs, dayStart)
    requires forall k, l | 0 <= k < l < |at| :: at[k] < at[l]
    requires forall i: nat | i < |runs| - 1 && ReachesTheDay(runs[i], last, nowMs, dayStart) :: i in at
    ensures AreHoldsOf(found + [h], runs, last, nowMs, dayStart, at + [|runs| - 1])
  {
    var n, all := |runs| - 1, at + [|runs| - 1];
    assert all[|at|] == n;
    forall i: nat | i < |runs| && ReachesTheDay(runs[i], last, nowMs, dayStart) ensures i in all {
      assert i < n ==> i in at;
    }
  }

  /** The runs before the last are told as they were. */
  lemma {:induction false} StillHolds(found: seq<Hold>, runs: seq<Timeseries.FrozenRun>, last: Option<int>, nowMs: int,
                                      dayStart: int, at: seq<nat>)
    requires runs != [] && AreHoldsOf(found, runs[..|runs| - 1], last, nowMs, dayStart, at)
    ensures forall k | 0 <= k < |at| ::
              at[k] < |runs| - 1 && IsHoldOf(found[k], runs[at[k]], last, nowMs, dayStart)
    ensures forall i: nat | i < |runs| - 1 && ReachesTheDay(runs[i], last, nowMs, dayStart) :: i in at
  {
    assert forall i | 0 <= i < |runs| - 1 :: runs[..|runs| - 1][i] == runs[i];
  }

  /** A live reading, as far as the bridge's freeze flag goes. */
  datatype Reading = Reading(frozen: bool, power: Option<real>, frozenSince: Option<int>, voltage: Timeseries.Field)

  function FrozenFromReading(reading: Option<Reading>, nowMs: int, dayStart: int, shared: bool): (h: Option<Hold>)
    ensures h.Some? ==> Charged(h.value, dayStart) && h.value.ongoing && h.value.toMs == nowMs
    ensures h.Some? <==>
      && reading.Some? && reading.value.frozen && reading.value.power.Some? && reading.value.frozenSince.Some?
      && reading.value.frozenSince.value < nowMs && dayStart < nowMs
    ensures h.Some? ==> Some(h.value.fromMs) == reading.value.frozenSince && Some(h.value.heldW) == reading.value.power
    ensures h.Some? ==> h.value.heldV == if shared then Timeseries.Absent else reading.value.voltage
  {
    if reading.None? || !reading.value.frozen || reading.value.power.None? || reading.value.frozenSince.None? then None
    else
      var since, power := reading.value.frozenSince.value, reading.value.power.value;
      var countedFrom := Max(since, dayStart);
      if nowMs <= countedFrom then None
      else Some(Hold(since, nowMs, true, power, if shared then Timeseries.Absent else reading.value.voltage,
                     Kwh(power, nowMs - countedFrom)))
  }

  // ---------------------------------------------------------------- what the energy means

  predicate Covers(h: Hold, t: int) { h.fromMs <= t < h.toMs }

  /** The first hold of `s` covering millisecond `t`. */
  ghost function FirstCovering(s: seq<Hold>, t: int): Option<Hold> {
    if s == [] then None
    else
      var earlier := FirstCovering(s[..|s| - 1], t);
      if earlier.Some? then earlier else if Covers(s[|s| - 1], t) then Some(s[|s| - 1]) else None
  }

  /** The one figure charged for millisecond `t`: none before the day, else the first covering hold's. */
  ghost function WattsAt(s: seq<Hold>, dayStart: int, t: int): real {
    if t < dayStart then 0.0
    else match FirstCovering(s, t) case None => 0.0 case Some(h) => h.heldW
  }

  ghost function WattMs(s: seq<Hold>, dayStart: int, lo: int, hi: int): real
    decreases hi - lo
  {
    if hi <= lo then 0.0 else WattMs(s, dayStart, lo, hi - 1) + WattsAt(s, dayStart, hi - 1)
  }

  ghost function TotalPhantom(s: seq<Hold>): real {
    if s == [] then 0.0 else TotalPhantom(s[..|s| - 1]) + s[|s| - 1].phantomKwh
  }

  ghost predicate Spans(s: seq<Hold>, lo: int, hi: int) {
    lo <= hi && forall k | 0 <= k < |s| :: lo <= s[k].fromMs && s[k].toMs <= hi
  }

  lemma {:induction false} CoveringIsCovered(s: seq<Hold>, t: int)
    ensures FirstCovering(s, t).Some? <==> exists k :: 0 <= k < |s| && Covers(s[k], t)
  {
    if s != [] {
      CoveringIsCovered(s[..|s| - 1], t);
    }
  }

  lemma {:induction false} WattMsSplit(s: seq<Hold>, dayStart: int, lo: int, mid: int, hi: int)
    requires lo <= mid <= hi
    ensures WattMs(s, dayStart, lo, hi) == WattMs(s, dayStart, lo, mid) + WattMs(s, dayStart, mid, hi)
    decreases hi - mid
  {
    if mid < hi { WattMsSplit(s, dayStart, lo, mid, hi - 1); }
  }

  lemma {:induction false} WattMsConstant(s: seq<Hold>, dayStart: int, lo: int, hi: int, w: real)
    requires lo <= hi && forall t | lo <= t < hi :: WattsAt(s, dayStart, t) == w
    ensures WattMs(s, dayStart, lo, hi) == w * (hi - lo) as real
    decreases hi - lo
  {
    if lo < hi {
      WattMsConstant(s, dayStart, lo, hi - 1, w);
      assert (hi - lo) as real == (hi - 1 - lo) as real + 1.0;
      assert w * (hi - lo) as real == w * (hi - 1 - lo) as real + w;
    }
  }

  lemma {:induction false} WattMsAgree(s1: seq<Hold>, s2: seq<Hold>, dayStart: int, lo: int, hi: int)
    requires forall t | lo <= t < hi :: WattsAt(s1, dayStart, t) == WattsAt(s2, dayStart, t)
    ensures WattMs(s1, dayStart, lo, hi) == WattMs(s2, dayStart, lo, hi)
    decreases hi - lo
  {
    if lo < hi { WattMsAgree(s1, s2, dayStart, lo, hi - 1); }
  }

  /** `reach` is how far the holds of `s`, none starting after `from`, extend. */
  ghost predicate Reach(s: seq<Hold>, from: int, reach: int) {
    && (forall k | 0 <= k < |s| :: s[k].fromMs <= from && s[k].toMs <= reach)
    && (if s == [] then reach <= from else exists k :: 0 <= k < |s| && s[k].toMs == reach)
  }

  lemma {:induction false} WattsOfNext(s: seq<Hold>, h: Hold, dayStart: int, reach: int, t: int)
    requires Reach(s, h.fromMs, reach)
    ensures var newFrom := Max(Max(h.fromMs, reach), dayStart);
            if newFrom <= t < h.toMs then WattsAt(s + [h], dayStart, t) == h.heldW && WattsAt(s, dayStart, t) == 0.0
            else WattsAt(s + [h], dayStart, t) == WattsAt(s, dayStart, t)
  {
    assert (s + [h])[..|s|] == s;
    CoveringIsCovered(s, t);
    if s != [] {
      var k :| 0 <= k < |s| && s[k].toMs == reach;
      assert h.fromMs <= t < reach ==> Covers(s[k], t);
    }
  }

  /** Adding the next hold charges exactly the milliseconds none of the earlier ones reached. */
  lemma {:induction false} ChargeNext(s: seq<Hold>, h: Hold, dayStart: int, reach: int, lo: int, hi: int)
    requires Reach(s, h.fromMs, reach)
    requires lo <= h.fromMs && h.toMs <= hi && lo <= hi
    ensures var newFrom := Max(Max(h.fromMs, reach), dayStart);
            WattMs(s + [h], dayStart, lo, hi) ==
            WattMs(s, dayStart, lo, hi) + (if newFrom < h.toMs then h.heldW * (h.toMs - newFrom) as real else 0.0)
  {
    var newFrom := Max(Max(h.fromMs, reach), dayStart);
    forall t { WattsOfNext(s, h, dayStart, reach, t); }
    if newFrom < h.toMs {
      ChargeStretch(s + [h], s, dayStart, lo, newFrom, h.toMs, hi, h.heldW);
    } else {
      WattMsAgree(s + [h], s, dayStart, lo, hi);
    }
  }

  /** Two charges that differ only on `[from, to)`, where one is nothing and the other constant. */
  lemma {:induction false} ChargeStretch(all: seq<Hold>, s: seq<Hold>, dayStart: int, lo: int, from: int, to: int,
        hi: int, w: real)
    requires lo <= from <= to <= hi
    requires forall t | lo <= t < from || to <= t < hi :: WattsAt(all, dayStart, t) == WattsAt(s, dayStart, t)
    requires forall t | from <= t < to :: WattsAt(all, dayStart, t) == w && WattsAt(s, dayStart, t) == 0.0
    ensures WattMs(all, dayStart, lo, hi) == WattMs(s, dayStart, lo, hi) + w * (to - from) as real
  {
    WattMsSplit(all, dayStart, lo, from, hi);
    WattMsSplit(all, dayStart, from, to, hi);
    WattMsSplit(s, dayStart, lo, from, hi);
    WattMsSplit(s, dayStart, from, to, hi);
    WattMsAgree(all, s, dayStart, lo, from);
    WattMsAgree(all, s, dayStart, to, hi);
    WattMsConstant(all, dayStart, from, to, w);
    WattMsConstant(s, dayStart, from, to, 0.0);
  }

  // ---------------------------------------------------------------- what the merge means

  predicate In(h: Hold, o: Hold) { o.fromMs <= h.fromMs && h.toMs <= o.toMs }

  /** The figure an output holds is that of the last input, in start order, that reaches its end. */
  ghost predicate HeldByLatest(s: seq<Hold>, o: Hold) {
    exists j :: IsLatestOf(s, o, j)
  }

  ghost predicate IsLatestOf(s: seq<Hold>, o: Hold, j: int) {
    && 0 <= j < |s| && In(s[j], o) && s[j].toMs == o.toMs && s[j].heldW == o.heldW && s[j].heldV == o.heldV
    && forall l | j < l < |s| && In(s[l], o) :: s[l].toMs < o.toMs
  }

  ghost predicate Near(s: seq<Hold>, o: Hold, t: int) {
    exists k :: 0 <= k < |s| && In(s[k], o) && s[k].fromMs <= t <= s[k].toMs + MERGE_GAP_MS
  }

  /** `o` is one unbroken stretch: it opens with an input, and no point of it is ten minutes past every input begun. */
  ghost predicate Unbroken(s: seq<Hold>, o: Hold) {
    && o.fromMs < o.toMs
    && (exists k :: 0 <= k < |s| && In(s[k], o) && s[k].fromMs == o.fromMs)
    && (forall t | o.fromMs <= t < o.toMs :: Near(s, o, t))
  }

  ghost predicate AnyOngoing(s: seq<Hold>, o: Hold) {
    exists k :: 0 <= k < |s| && In(s[k], o) && s[k].ongoing
  }

  ghost predicate Summarises(s: seq<Hold>, o: Hold) {
    Unbroken(s, o) && HeldByLatest(s, o) && (o.ongoing <==> AnyOngoing(s, o))
  }

  /** More than ten minutes from one hold to the next. */
  ghost predicate Apart(out: seq<Hold>) {
    forall i, j | 0 <= i < j < |out| :: out[i].toMs + MERGE_GAP_MS < out[j].fromMs
  }

  ghost predicate Contained(h: Hold, out: seq<Hold>) {
    exists i :: 0 <= i < |out| && In(h, out[i])
  }

  ghost predicate AllSummarise(s: seq<Hold>, out: seq<Hold>) {
    forall i {:trigger Summarises(s, out[i])} | 0 <= i < |out| :: Summarises(s, out[i])
  }

  ghost predicate Merged(s: seq<Hold>, out: seq<Hold>) {
    && Apart(out)
    && Cover(s, out)
    && AllSummarise(s, out)
  }

  predicate HoldLe(a: Hold, b: Hold) { a.fromMs <= b.fromMs }

  function Extend(last: Hold, h: Hold, dayStart: int): Hold {
    var newFrom := Max(Max(h.fromMs, last.toMs), dayStart);
    var extra := if h.toMs > newFrom then Kwh(h.heldW, h.toMs - newFrom) else 0.0;
    var later := h.toMs >= last.toMs;
    Hold(last.fromMs, Max(last.toMs, h.toMs), last.ongoing || h.ongoing,
         if later then h.heldW else last.heldW, if later then h.heldV else last.heldV, last.phantomKwh + extra)
  }

  /** A hold outside `o` leaves what `o` summarises as it was. */
  lemma {:induction false} StillSummarises(s: seq<Hold>, o: Hold, h: Hold)
    requires Summarises(s, o) && !In(h, o)
    ensures Summarises(s + [h], o)
  {
    var all := s + [h];
    var first :| 0 <= first < |s| && In(s[first], o) && s[first].fromMs == o.fromMs;
    assert all[first] == s[first];
    forall t | o.fromMs <= t < o.toMs ensures Near(all, o, t) {
      assert Near(s, o, t);
      var k :| 0 <= k < |s| && In(s[k], o) && s[k].fromMs <= t <= s[k].toMs + MERGE_GAP_MS;
      assert all[k] == s[k];
    }
    var j :| IsLatestOf(s, o, j);
    assert IsLatestOf(all, o, j);
    if AnyOngoing(s, o) {
      var k :| 0 <= k < |s| && In(s[k], o) && s[k].ongoing;
      assert all[k] == s[k];
    }
  }

  ghost predicate Proper(s: seq<Hold>) {
    forall k | 0 <= k < |s| :: s[k].fromMs < s[k].toMs
  }

  lemma {:induction false} Alone(s: seq<Hold>, h: Hold)
    requires h.fromMs < h.toMs && forall k | 0 <= k < |s| :: !In(s[k], h)
    ensures Summarises(s + [h], h)
  {
    var all := s + [h];
    assert all[|s|] == h && In(h, h);
    assert IsLatestOf(all, h, |s|);
  }

  ghost predicate Cover(s: seq<Hold>, out: seq<Hold>) {
    forall k {:trigger Contained(s[k], out)} | 0 <= k < |s| :: Contained(s[k], out)
  }

  lemma {:induction false} OpenNew(s: seq<Hold>, out: seq<Hold>, h: Hold)
    requires Merged(s, out) && Proper(s) && h.fromMs < h.toMs
    requires forall i | 0 <= i < |out| :: out[i].toMs + MERGE_GAP_MS < h.fromMs
    ensures Merged(s + [h], out + [h])
  {
    CoverNew(s, out, h);
    OthersStill(s, out, h);
    Alone(s, h);
    var out' := out + [h];
    forall i | 0 <= i < |out'| ensures Summarises(s + [h], out'[i]) {
      assert i < |out| ==> out'[i] == out[i] && Summarises(s + [h], out[i]);
    }
  }

  lemma {:induction false} OthersStill(s: seq<Hold>, out: seq<Hold>, h: Hold)
    requires AllSummarise(s, out) && forall i | 0 <= i < |out| :: !In(h, out[i])
    ensures AllSummarise(s + [h], out)
  {
    forall i | 0 <= i < |out| ensures Summarises(s + [h], out[i]) {
      assert Summarises(s, out[i]);
      StillSummarises(s, out[i], h);
    }
  }

  lemma {:induction false} CoverNew(s: seq<Hold>, out: seq<Hold>, h: Hold)
    requires Cover(s, out) && Proper(s)
    requires forall i | 0 <= i < |out| :: out[i].toMs + MERGE_GAP_MS < h.fromMs
    ensures Cover(s + [h], out + [h])
    ensures forall k | 0 <= k < |s| :: !In(s[k], h)
  {
    var out' := out + [h];
    assert out'[|out|] == h;
    forall k | 0 <= k < |s| ensures Contained(s[k], out') && !In(s[k], h) {
      assert Contained(s[k], out);
      var i :| 0 <= i < |out| && In(s[k], out[i]);
      assert out'[i] == out[i];
    }
  }

  /** The earlier inputs in the grown hold are those that were in it before it grew. */
  lemma {:induction false} GrownMembers(s: seq<Hold>, out: seq<Hold>, o: Hold)
    requires Apart(out) && Cover(s, out) && Proper(s) && out != []
    requires o.fromMs == out[|out| - 1].fromMs && out[|out| - 1].toMs <= o.toMs
    ensures forall k | 0 <= k < |s| :: In(s[k], o) <==> In(s[k], out[|out| - 1])
  {
    forall k | 0 <= k < |s| ensures In(s[k], o) <==> In(s[k], out[|out| - 1]) {
      assert Contained(s[k], out);
      var i :| 0 <= i < |out| && In(s[k], out[i]);
      assert i == |out| - 1 || out[i].toMs + MERGE_GAP_MS < out[|out| - 1].fromMs;
    }
  }

  lemma {:induction false} GrownUnbroken(s: seq<Hold>, last: Hold, h: Hold, o: Hold)
    requires Unbroken(s, last) && HeldByLatest(s, last) && Proper(s) && In(h, o) && h.fromMs < h.toMs
    requires o.fromMs == last.fromMs && o.toMs == Max(last.toMs, h.toMs) && h.fromMs <= last.toMs + MERGE_GAP_MS
    ensures Unbroken(s + [h], o)
  {
    var all := s + [h];
    assert all[|s|] == h;
    var first :| 0 <= first < |s| && In(s[first], last) && s[first].fromMs == last.fromMs;
    assert all[first] == s[first] && In(s[first], o);
    var j :| IsLatestOf(s, last, j);
    assert all[j] == s[j] && In(s[j], o);
    forall t | o.fromMs <= t < o.toMs ensures Near(all, o, t) {
      if t < last.toMs {
        assert Near(s, last, t);
        var k :| 0 <= k < |s| && In(s[k], last) && s[k].fromMs <= t <= s[k].toMs + MERGE_GAP_MS;
        assert all[k] == s[k] && In(s[k], o);
      } else {
        assert s[j].fromMs <= t;
      }
    }
  }

  lemma {:induction false} GrownHeld(s: seq<Hold>, last: Hold, h: Hold, dayStart: int)
    requires HeldByLatest(s, last) && In(h, Extend(last, h, dayStart))
    requires forall k | 0 <= k < |s| :: In(s[k], Extend(last, h, dayStart)) <==> In(s[k], last)
    ensures HeldByLatest(s + [h], Extend(last, h, dayStart))
  {
    var all, o := s + [h], Extend(last, h, dayStart);
    assert all[|s|] == h;
    if h.toMs >= last.toMs {
      assert IsLatestOf(all, o, |s|);
    } else {
      var j :| IsLatestOf(s, last, j);
      assert IsLatestOf(all, o, j);
    }
  }

  lemma {:induction false} GrownOngoing(s: seq<Hold>, last: Hold, h: Hold, o: Hold)
    requires In(h, o) && forall k | 0 <= k < |s| :: In(s[k], o) <==> In(s[k], last)
    ensures AnyOngoing(s + [h], o) <==> AnyOngoing(s, last) || h.ongoing
  {
    var all := s + [h];
    assert all[|s|] == h;
    if AnyOngoing(s, last) {
      var k :| 0 <= k < |s| && In(s[k], last) && s[k].ongoing;
      assert all[k] == s[k];
    }
  }

  lemma {:induction false} CoverGrown(s: seq<Hold>, out: seq<Hold>, h: Hold, o: Hold)
    requires Cover(s, out) && out != [] && In(h, o) && In(out[|out| - 1], o)
    ensures Cover(s + [h], out[|out| - 1 := o])
  {
    var out' := out[|out| - 1 := o];
    assert out'[|out| - 1] == o;
    forall k | 0 <= k < |s| ensures Contained(s[k], out') {
      assert Contained(s[k], out);
      var i :| 0 <= i < |out| && In(s[k], out[i]);
      assert In(s[k], out'[i]);
    }
  }

  lemma {:induction false} GrownSummary(s: seq<Hold>, out: seq<Hold>, h: Hold, dayStart: int)
    requires Merged(s, out) && Proper(s) && out != [] && h.fromMs < h.toMs
    requires out[|out| - 1].fromMs <= h.fromMs <= out[|out| - 1].toMs + MERGE_GAP_MS
    ensures Summarises(s + [h], Extend(out[|out| - 1], h, dayStart))
  {
    var last := out[|out| - 1];
    var o := Extend(last, h, dayStart);
    assert Summarises(s, last);
    GrownMembers(s, out, o);
    GrownUnbroken(s, last, h, o);
    GrownHeld(s, last, h, dayStart);
    GrownOngoing(s, last, h, o);
  }

  lemma {:induction false} Grow(s: seq<Hold>, out: seq<Hold>, h: Hold, dayStart: int)
    requires Merged(s, out) && Proper(s) && out != [] && h.fromMs < h.toMs
    requires out[|out| - 1].fromMs <= h.fromMs <= out[|out| - 1].toMs + MERGE_GAP_MS
    ensures Merged(s + [h], out[|out| - 1 := Extend(out[|out| - 1], h, dayStart)])
  {
    var n := |out| - 1;
    var last := out[n];
    var o := Extend(last, h, dayStart);
    GrownSummary(s, out, h, dayStart);
    CoverGrown(s, out, h, o);
    forall i | 0 <= i < n ensures !In(h, out[i]) {
      assert out[i].toMs + MERGE_GAP_MS < last.fromMs;
    }
    forall i | 0 <= i < n ensures Summarises(s, out[..n][i]) { assert Summarises(s, out[i]); }
    OthersStill(s, out[..n], h);
    var out' := out[n := o];
    forall i | 0 <= i < |out'| ensures Summarises(s + [h], out'[i]) {
      assert i < n ==> out'[i] == out[..n][i] && Summarises(s + [h], out[..n][i]);
    }
  }

  /** The holds of `out`, in order, are charged in all what the holds of `s` cover, each millisecond once. */
  ghost predicate ChargedOnce(s: seq<Hold>, out: seq<Hold>, dayStart: int) {
    forall lo, hi | Spans(s, lo, hi) :: TotalPhantom(out) * W_MS_PER_KWH == WattMs(s, dayStart, lo, hi)
  }

  /** Each hold of `out` is charged what the holds of `s` cover of its own span. */
  ghost predicate EachCharged(s: seq<Hold>, out: seq<Hold>, dayStart: int) {
    forall i | 0 <= i < |out| :: ChargedWithin(s, out[i], dayStart)
  }

  ghost predicate ChargedWithin(s: seq<Hold>, o: Hold, dayStart: int) {
    o.phantomKwh * W_MS_PER_KWH == WattMs(s, dayStart, o.fromMs, o.toMs)
  }

  /** What the loop has established once it has read the holds of `s`. */
  ghost predicate Progress(s: seq<Hold>, out: seq<Hold>, dayStart: int) {
    && Merged(s, out) && ChargedOnce(s, out, dayStart) && EachCharged(s, out, dayStart) && Proper(s)
    && (s == [] <==> out == [])
    && (s != [] ==> Reach(s, s[|s| - 1].fromMs, out[|out| - 1].toMs) && out[|out| - 1].fromMs <= s[|s| - 1].fromMs)
  }

  lemma {:induction false} ProgressStart(dayStart: int)
    ensures Progress([], [], dayStart)
  {
    forall lo, hi | Spans([], lo, hi) { WattMsConstant([], dayStart, lo, hi, 0.0); }
  }

  lemma {:induction false} ReachOn(s: seq<Hold>, out: seq<Hold>, h: Hold, o: Hold)
    requires s == [] <==> out == []
    requires s == [] || Reach(s, h.fromMs, out[|out| - 1].toMs)
    requires o.toMs == if out == [] then h.toMs else Max(out[|out| - 1].toMs, h.toMs)
    ensures Reach(s + [h], h.fromMs, o.toMs)
  {
    var all := s + [h];
    assert all[|s|] == h;
    if s != [] {
      var k :| 0 <= k < |s| && s[k].toMs == out[|out| - 1].toMs;
      assert all[k] == s[k];
    }
  }

  /** A hold that ended before the next one starts is charged as it was. */
  lemma {:induction false} ChargedStill(s: seq<Hold>, h: Hold, o: Hold, dayStart: int, reach: int)
    requires Reach(s, h.fromMs, reach) && ChargedWithin(s, o, dayStart) && o.toMs <= h.fromMs
    ensures ChargedWithin(s + [h], o, dayStart)
  {
    forall t | o.fromMs <= t < o.toMs { WattsOfNext(s, h, dayStart, reach, t); }
    WattMsAgree(s + [h], s, dayStart, o.fromMs, o.toMs);
  }

  lemma {:induction false} NothingPast(s: seq<Hold>, dayStart: int, from: int, reach: int, lo: int, hi: int)
    requires Reach(s, from, reach) && (s == [] || reach <= lo) && lo <= hi
    ensures WattMs(s, dayStart, lo, hi) == 0.0
  {
    forall t | lo <= t < hi { CoveringIsCovered(s, t); }
    WattMsConstant(s, dayStart, lo, hi, 0.0);
  }

  lemma {:induction false} OpenedCharged(s: seq<Hold>, h: Hold, dayStart: int, reach: int)
    requires Reach(s, h.fromMs, reach) && reach <= h.fromMs && Charged(h, dayStart)
    ensures ChargedWithin(s + [h], h, dayStart)
  {
    ChargeNext(s, h, dayStart, reach, h.fromMs, h.toMs);
    NothingPast(s, dayStart, h.fromMs, reach, h.fromMs, h.toMs);
    KwhOfWattMs(h.heldW, h.toMs - Max(h.fromMs, dayStart));
  }

  lemma {:induction false} GrownCharged(s: seq<Hold>, last: Hold, h: Hold, dayStart: int)
    requires Reach(s, h.fromMs, last.toMs) && last.fromMs <= h.fromMs && last.fromMs <= last.toMs
      && ChargedWithin(s, last, dayStart)
    ensures ChargedWithin(s + [h], Extend(last, h, dayStart), dayStart)
  {
    var newFrom, to := Max(Max(h.fromMs, last.toMs), dayStart), Max(last.toMs, h.toMs);
    ChargeNext(s, h, dayStart, last.toMs, last.fromMs, to);
    WattMsSplit(s, dayStart, last.fromMs, last.toMs, to);
    NothingPast(s, dayStart, h.fromMs, last.toMs, last.toMs, to);
    KwhOfWattMs(h.heldW, h.toMs - newFrom);
  }

  lemma {:induction false} EachStill(s: seq<Hold>, out: seq<Hold>, h: Hold, dayStart: int, reach: int)
    requires Reach(s, h.fromMs, reach) && EachCharged(s, out, dayStart)
      && forall i | 0 <= i < |out| :: out[i].toMs <= h.fromMs
    ensures EachCharged(s + [h], out, dayStart)
  {
    forall i | 0 <= i < |out| ensures ChargedWithin(s + [h], out[i], dayStart) {
      assert ChargedWithin(s, out[i], dayStart);
      ChargedStill(s, h, out[i], dayStart, reach);
    }
  }

  lemma {:induction false} EachOpened(s: seq<Hold>, out: seq<Hold>, h: Hold, dayStart: int, reach: int)
    requires Reach(s, h.fromMs, reach) && reach <= h.fromMs && Charged(h, dayStart) && EachCharged(s, out, dayStart)
    requires forall i | 0 <= i < |out| :: out[i].toMs <= h.fromMs
    ensures EachCharged(s + [h], out + [h], dayStart)
  {
    EachStill(s, out, h, dayStart, reach);
    OpenedCharged(s, h, dayStart, reach);
    var out' := out + [h];
    forall i | 0 <= i < |out'| ensures ChargedWithin(s + [h], out'[i], dayStart) {
      assert i < |out| ==> out'[i] == out[i] && ChargedWithin(s + [h], out[i], dayStart);
    }
  }

  lemma {:induction false} EachGrown(s: seq<Hold>, out: seq<Hold>, h: Hold, dayStart: int)
    requires out != [] && Apart(out) && EachCharged(s, out, dayStart) && Reach(s, h.fromMs, out[|out| - 1].toMs)
    requires out[|out| - 1].fromMs <= h.fromMs && out[|out| - 1].fromMs <= out[|out| - 1].toMs
    ensures EachCharged(s + [h], out[|out| - 1 := Extend(out[|out| - 1], h, dayStart)], dayStart)
  {
    var n := |out| - 1;
    var o := Extend(out[n], h, dayStart);
    assert ChargedWithin(s, out[n], dayStart);
    GrownCharged(s, out[n], h, dayStart);
    forall i | 0 <= i < n ensures ChargedWithin(s, out[..n][i], dayStart) && out[..n][i].toMs <= h.fromMs {
      assert ChargedWithin(s, out[i], dayStart) && out[i].toMs + MERGE_GAP_MS < out[n].fromMs;
    }
    EachStill(s, out[..n], h, dayStart, out[n].toMs);
    var out' := out[n := o];
    forall i | 0 <= i <= n ensures ChargedWithin(s + [h], out'[i], dayStart) {
      assert i < n ==> out'[i] == out[..n][i] && ChargedWithin(s + [h], out[..n][i], dayStart);
    }
  }

  lemma {:induction false} ProgressOpens(s: seq<Hold>, out: seq<Hold>, h: Hold, dayStart: int)
    requires Progress(s, out, dayStart) && Charged(h, dayStart) && (s == [] || s[|s| - 1].fromMs <= h.fromMs)
    requires out == [] || h.fromMs > out[|out| - 1].toMs + MERGE_GAP_MS
    ensures Progress(s + [h], out + [h], dayStart)
  {
    forall i | 0 <= i < |out| ensures out[i].toMs + MERGE_GAP_MS < h.fromMs {
      assert i == |out| - 1 || (out[i].toMs + MERGE_GAP_MS < out[|out| - 1].fromMs && Summarises(s, out[|out| - 1]));
    }
    OpenNew(s, out, h);
    ChargeOpened(s, out, h, dayStart);
    EachOpened(s, out, h, dayStart, if out == [] then h.fromMs else out[|out| - 1].toMs);
    ReachOn(s, out, h, h);
  }

  lemma {:induction false} ProgressGrows(s: seq<Hold>, out: seq<Hold>, h: Hold, dayStart: int)
    requires Progress(s, out, dayStart) && Charged(h, dayStart) && (s == [] || s[|s| - 1].fromMs <= h.fromMs)
    requires out != [] && h.fromMs <= out[|out| - 1].toMs + MERGE_GAP_MS
    ensures Progress(s + [h], out[|out| - 1 := Extend(out[|out| - 1], h, dayStart)], dayStart)
  {
    Grow(s, out, h, dayStart);
    ChargeGrown(s, out, h, dayStart);
    assert Summarises(s, out[|out| - 1]);
    EachGrown(s, out, h, dayStart);
    ReachOn(s, out, h, Extend(out[|out| - 1], h, dayStart));
  }

  method MergeHolds(holds: seq<Hold>, dayStart: int) returns (out: seq<Hold>)
    requires forall k | 0 <= k < |holds| :: Charged(holds[k], dayStart)
    ensures Merged(Sort(HoldLe, holds), out)
    ensures ChargedOnce(Sort(HoldLe, holds), out, dayStart) && EachCharged(Sort(HoldLe, holds), out, dayStart)
  {
    var sorted := Sort(HoldLe, holds);
    SortElements(HoldLe, holds);
    SortSorted(HoldLe, holds);
    assert forall k | 0 <= k < |sorted| :: sorted[k] in holds;
    out := MergeSorted(sorted, dayStart);
  }

  method MergeSorted(sorted: seq<Hold>, dayStart: int) returns (out: seq<Hold>)
    requires SortedBy(HoldLe, sorted) && forall k | 0 <= k < |sorted| :: Charged(sorted[k], dayStart)
    ensures Progress(sorted, out, dayStart)
  {
    out := [];
    ProgressStart(dayStart);
    for i := 0 to |sorted|
      invariant Progress(sorted[..i], out, dayStart)
    {
      var h := sorted[i];
      assert i == 0 || HoldLe(sorted[i - 1], h);
      assert sorted[..i + 1] == sorted[..i] + [h];
      out := Absorb(sorted[..i], out, h, dayStart);
    }
    assert sorted[..|sorted|] == sorted;
  }

  /** The loop's body: the next hold in start order opens a new one, or grows the last. */
  method Absorb(ghost s: seq<Hold>, out: seq<Hold>, h: Hold, dayStart: int) returns (next: seq<Hold>)
    requires Progress(s, out, dayStart) && Charged(h, dayStart) && (s == [] || s[|s| - 1].fromMs <= h.fromMs)
    ensures Progress(s + [h], next, dayStart)
  {
    if |out| == 0 || h.fromMs > out[|out| - 1].toMs + MERGE_GAP_MS {
      ProgressOpens(s, out, h, dayStart);
      return out + [h];
    }
    ProgressGrows(s, out, h, dayStart);
    var last := out[|out| - 1];
    var newFrom := Max(Max(h.fromMs, last.toMs), dayStart);
    var extra := if h.toMs > newFrom then Kwh(h.heldW, h.toMs - newFrom) else 0.0;
    var merged := last.(toMs := Max(last.toMs, h.toMs), ongoing := last.ongoing || h.ongoing,
      phantomKwh := last.phantomKwh + extra);
    if h.toMs >= last.toMs {
      merged := merged.(heldW := h.heldW, heldV := h.heldV);
    }
    assert merged == Extend(last, h, dayStart);
    next := out[|out| - 1 := merged];
  }

  lemma {:induction false} PhantomAppend(out: seq<Hold>, h: Hold)
    ensures TotalPhantom(out + [h]) == TotalPhantom(out) + h.phantomKwh
  {
    assert (out + [h])[..|out|] == out;
  }

  lemma {:induction false} KwhOfWattMs(watts: real, ms: int)
    ensures Kwh(watts, ms) * W_MS_PER_KWH == watts * ms as real
  {}

  lemma {:induction false} ChargeOpenedIn(s: seq<Hold>, out: seq<Hold>, h: Hold, dayStart: int, lo: int, hi: int)
    requires ChargedOnce(s, out, dayStart) && Charged(h, dayStart) && Spans(s, lo, hi)
    requires lo <= h.fromMs && h.toMs <= hi
    requires if out == [] then s == [] else Reach(s, h.fromMs, out[|out| - 1].toMs) && out[|out| - 1].toMs < h.fromMs
    ensures TotalPhantom(out + [h]) * W_MS_PER_KWH == WattMs(s + [h], dayStart, lo, hi)
  {
    var reach := if out == [] then h.fromMs else out[|out| - 1].toMs;
    var newFrom := Max(h.fromMs, dayStart);
    assert Max(Max(h.fromMs, reach), dayStart) == newFrom;
    ChargeNext(s, h, dayStart, reach, lo, hi);
    PhantomAppend(out, h);
    KwhOfWattMs(h.heldW, h.toMs - newFrom);
    assert TotalPhantom(out) * W_MS_PER_KWH == WattMs(s, dayStart, lo, hi);
  }

  lemma {:induction false} ChargeOpened(s: seq<Hold>, out: seq<Hold>, h: Hold, dayStart: int)
    requires ChargedOnce(s, out, dayStart) && Charged(h, dayStart)
    requires if out == [] then s == [] else Reach(s, h.fromMs, out[|out| - 1].toMs) && out[|out| - 1].toMs < h.fromMs
    ensures ChargedOnce(s + [h], out + [h], dayStart)
  {
    forall lo, hi | Spans(s + [h], lo, hi)
      ensures TotalPhantom(out + [h]) * W_MS_PER_KWH == WattMs(s + [h], dayStart, lo, hi)
    {
      SpansPrefix(s, h, lo, hi);
      ChargeOpenedIn(s, out, h, dayStart, lo, hi);
    }
  }

  lemma {:induction false} SpansPrefix(s: seq<Hold>, h: Hold, lo: int, hi: int)
    requires Spans(s + [h], lo, hi)
    ensures Spans(s, lo, hi) && lo <= h.fromMs && h.toMs <= hi
  {
    var all := s + [h];
    assert all[|s|] == h;
    assert forall k | 0 <= k < |s| :: all[k] == s[k];
  }

  lemma {:induction false} ChargeGrown(s: seq<Hold>, out: seq<Hold>, h: Hold, dayStart: int)
    requires ChargedOnce(s, out, dayStart) && out != [] && Reach(s, h.fromMs, out[|out| - 1].toMs) && s != []
    ensures ChargedOnce(s + [h], out[|out| - 1 := Extend(out[|out| - 1], h, dayStart)], dayStart)
  {
    var n := |out| - 1;
    var last := out[n];
    var o := Extend(last, h, dayStart);
    assert out == out[..n] + [last] && out[n := o] == out[..n] + [o];
    PhantomAppend(out[..n], last);
    PhantomAppend(out[..n], o);
    var newFrom := Max(Max(h.fromMs, last.toMs), dayStart);
    KwhOfWattMs(h.heldW, h.toMs - newFrom);
    forall lo, hi | Spans(s + [h], lo, hi)
      ensures TotalPhantom(out[n := o]) * W_MS_PER_KWH == WattMs(s + [h], dayStart, lo, hi)
    {
      SpansPrefix(s, h, lo, hi);
      ChargeNext(s, h, dayStart, last.toMs, lo, hi);
    }
  }

  /** What goes into one meter's merge: the holds its history shows and the one the bridge flags. */
  ghost function MeterInputs(d: Detected, flagged: Option<Hold>, nowMs: int, dayStart: int): seq<Hold> {
    HoldsOf(d.runs, d.last, nowMs, dayStart) + (if flagged.Some? then [flagged.value] else [])
  }

  ghost predicate AreMeterHolds(points: seq<Timeseries.HistoryPoint>, reading: Option<Reading>, nowMs: int,
                                dayStart: int, shared: bool, found: seq<Hold>)
  {
    var flagged := FrozenFromReading(reading, nowMs, dayStart, shared);
    exists d :: DetectedIn(points, shared, d) && MergedFrom(MeterInputs(d, flagged, nowMs, dayStart), found, dayStart)
  }

  ghost predicate MergedFrom(holds: seq<Hold>, out: seq<Hold>, dayStart: int) {
    var sorted := Sort(HoldLe, holds);
    Merged(sorted, out) && ChargedOnce(sorted, out, dayStart) && EachCharged(sorted, out, dayStart)
  }

  method MeterHolds(points: seq<Timeseries.HistoryPoint>, reading: Option<Reading>, nowMs: int, offsetMinutes: int,
        shared: bool)
    returns (found: seq<Hold>)
    ensures AreMeterHolds(points, reading, nowMs, SiteDayStart(nowMs, offsetMinutes), shared, found)
  {
    var dayStart := SiteDayStart(nowMs, offsetMinutes);
    ghost var d;
    var holds;
    holds, d := FrozenToday(points, nowMs, dayStart, shared);
    var flagged := FrozenFromReading(reading, nowMs, dayStart, shared);
    assert holds + [] == holds;
    if flagged.Some? { holds := holds + [flagged.value]; }
    found := MergeHolds(holds, dayStart);
    assert DetectedIn(points, shared, d) && MergedFrom(holds, found, dayStart);
  }
}
