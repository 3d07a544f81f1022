/**
 Energy registers (`src/lib/boundedEnergy.ts`): banking a meter's counter across its resets, and
 crediting no hour with more than its circuit could have drawn.
 */
module BoundedEnergy {
  import opened Wrappers
  import opened Sorting

  const HOUR_MS := 3600000
  const CEILING_FACTOR := 1.1
  const CEILING_SLACK_KWH := 0.005

  function Pos(x: real): real { if x > 0.0 then x else 0.0 }
  function MaxR(a: real, b: real): real { if a < b then b else a }
  function MinR(a: real, b: real): real { if a < b then a else b }

  // ---------------------------------------------------------------- banking a register

  /** One hour of a register: its first and last reading, and what it rose by between them. */
  datatype HourRegister = HourRegister(start: int, first: real, last: real, gain: real)

  /** What a run of readings rose by, reading to reading; a fall adds nothing. */
  ghost function Gain(values: seq<real>): real {
    if |values| < 2 then 0.0
    else Gain(values[..|values| - 1]) + Pos(values[|values| - 1] - values[|values| - 2])
  }

  method RegisterGain(values: seq<real>) returns (gain: real)
    ensures gain == Gain(values)
  {
    gain := 0.0;
    var i := 1;
    while i < |values|
      invariant 1 <= i && (i <= |values| || |values| == 0)
      invariant i <= |values| ==> gain == Gain(values[..i])
      invariant |values| == 0 ==> gain == 0.0
    {
      assert values[..i + 1][..i] == values[..i];
      gain := gain + Pos(values[i] - values[i - 1]);
      i := i + 1;
    }
    assert |values| > 0 ==> values[..|values|] == values;
  }

  method HourRegisterOf(start: int, values: seq<real>) returns (r: Option<HourRegister>)
    ensures r == RegisterOf(start, values)
  {
    if |values| == 0 { return None; }
    var gain := RegisterGain(values);
    r := Some(HourRegister(start, values[0], values[|values| - 1], gain));
  }

  ghost function RegisterOf(start: int, values: seq<real>): Option<HourRegister> {
    if values == [] then None else Some(HourRegister(start, values[0], values[|values| - 1], Gain(values)))
  }

  /** An hourly rollup row; rows from before the first and last were kept have only the highest reading. */
  datatype RolledRow = RolledRow(max: Option<real>, first: Option<real>, last: Option<real>, gain: Option<real>)

  function RolledHourRegister(start: int, row: RolledRow): (r: Option<HourRegister>)
    ensures r.Some? <==> row.last.Some? || row.max.Some?
    ensures r.Some? ==> r.value.start == start && r.value.last == row.last.GetOr(row.max.GetOr(0.0))
    ensures r.Some? ==> r.value.first == (if row.first.Some? then row.first.value else row.max.GetOr(r.value.last))
    ensures r.Some? ==> r.value.gain == row.gain.GetOr(0.0)
  {
    var last := if row.last.Some? then row.last else row.max;
    if last.None? then None
    else Some(HourRegister(start, row.first.GetOr(row.max.GetOr(last.value)), last.value, row.gain.GetOr(0.0)))
  }

  /** A row that kept what its hour's readings came to is read back as those readings are. */
  lemma {:induction false} RolledRowsReadBack(start: int, values: seq<real>, max: Option<real>)
    requires values != []
    ensures var h := RegisterOf(start, values).value;
            RolledHourRegister(start, RolledRow(max, Some(h.first), Some(h.last), Some(h.gain))) ==
              RegisterOf(start, values)
  {}

  /** The register banked to the end of the last of these hours, which begin at local midnight. */
  ghost function Banked(hours: seq<HourRegister>): real {
    if hours == [] then 0.0
    else
      var init, h := hours[..|hours| - 1], hours[|hours| - 1];
      Banked(init) + Pos(h.first - PrevLast(init)) + h.gain
  }

  ghost function PrevLast(hours: seq<HourRegister>): real {
    if hours == [] then 0.0 else hours[|hours| - 1].last
  }

  predicate RegisterLe(a: HourRegister, b: HourRegister) { a.start <= b.start }

  /** The last of the sorted hours to begin when hour `j` does. */
  ghost predicate LastOfItsStart(sorted: seq<HourRegister>, j: int) {
    0 <= j < |sorted| && forall l | j < l < |sorted| :: sorted[l].start != sorted[j].start
  }

  ghost predicate BanksOf(sorted: seq<HourRegister>, out: map<int, real>) {
    && (forall k | k in out :: exists j :: 0 <= j < |sorted| && sorted[j].start == k)
    && (forall j | LastOfItsStart(sorted, j) ::
       sorted[j].start in out && out[sorted[j].start] == Banked(sorted[..j + 1]))
  }

  /** The bank at the end of each hour. */
  method BankDay(hours: seq<HourRegister>) returns (out: map<int, real>)
    ensures BanksOf(Sort(RegisterLe, hours), out)
  {
    var sorted := Sort(RegisterLe, hours);
    out := map[];
    var banked, prevLast := 0.0, 0.0;
    for i := 0 to |sorted|
      invariant banked == Banked(sorted[..i]) && prevLast == PrevLast(sorted[..i])
      invariant BanksOf(sorted[..i], out)
    {
      var hour := sorted[i];
      banked := banked + Pos(hour.first - prevLast) + hour.gain;
      prevLast := hour.last;
      BankMore(sorted[..i], hour);
      BanksNext(sorted[..i], out, hour, banked);
      assert sorted[..i] + [hour] == sorted[..i + 1];
      out := out[hour.start := banked];
    }
    assert sorted[..|sorted|] == sorted;
  }

  lemma {:induction false} BankMore(s: seq<HourRegister>, h: HourRegister)
    ensures Banked(s + [h]) == Banked(s) + Pos(h.first - PrevLast(s)) + h.gain && PrevLast(s + [h]) == h.last
  {
    assert (s + [h])[..|s|] == s;
  }

  lemma {:induction false} BanksNext(s: seq<HourRegister>, out: map<int, real>, h: HourRegister, banked: real)
    requires BanksOf(s, out) && banked == Banked(s + [h])
    ensures BanksOf(s + [h], out[h.start := banked])
  {
    var all, next := s + [h], out[h.start := banked];
    forall k | k in next ensures exists j :: 0 <= j < |all| && all[j].start == k {
      if k == h.start {
        assert all[|s|].start == k;
      } else {
        var j :| 0 <= j < |s| && s[j].start == k;
        assert all[j].start == k;
      }
    }
    forall j | LastOfItsStart(all, j) ensures all[j].start in next && next[all[j].start] == Banked(all[..j + 1]) {
      if j == |s| {
        assert all[..j + 1] == all;
      } else {
        assert all[|s|].start != all[j].start;
        assert LastOfItsStart(s, j) by { assert forall l | j < l < |s| :: all[l] == s[l]; }
        assert all[..j + 1] == s[..j + 1];
      }
    }
  }

  // ---------------------------------------------------------------- banking does not see the hours

  ghost function Flat(chunks: seq<seq<real>>): seq<real> {
    if chunks == [] then [] else Flat(chunks[..|chunks| - 1]) + chunks[|chunks| - 1]
  }

  /** The registers of a day's readings cut into hours; an hour with none has no register. */
  ghost function Cut(starts: seq<int>, chunks: seq<seq<real>>): seq<HourRegister>
    requires |starts| == |chunks|
  {
    if chunks == [] then []
    else
      var n := |chunks| - 1;
      Cut(starts[..n], chunks[..n]) +
      match RegisterOf(starts[n], chunks[n]) case None => [] case Some(r) => [r]
  }

  lemma {:induction false} GainMore(values: seq<real>, x: real)
    requires values != []
    ensures Gain(values + [x]) == Gain(values) + Pos(x - values[|values| - 1])
  {
    assert (values + [x])[..|values|] == values;
  }

  lemma {:induction false} GainConcat(a: seq<real>, b: seq<real>)
    requires a != [] && b != []
    ensures Gain(a + b) == Gain(a) + Pos(b[0] - a[|a| - 1]) + Gain(b)
    decreases |b|
  {
    var init, x := b[..|b| - 1], b[|b| - 1];
    assert b == init + [x];
    if init == [] {
      assert b == [x];
      GainMore(a, x);
    } else {
      GainConcat(a, init);
      assert a + b == (a + init) + [x];
      GainMore(a + init, x);
      GainMore(init, x);
    }
  }

  lemma {:induction false} BankNextChunk(cut: seq<HourRegister>, before: seq<real>, start: int, chunk: seq<real>)
    requires before != [] && chunk != [] && Banked(cut) == Gain(before) && PrevLast(cut) == before[|before| - 1]
    ensures RegisterOf(start, chunk).Some?
    ensures var all := cut + [RegisterOf(start, chunk).value];
            Banked(all) == Gain(before + chunk) && PrevLast(all) == (before + chunk)[|before + chunk| - 1]
  {
    GainConcat(before, chunk);
    assert (cut + [RegisterOf(start, chunk).value])[..|cut|] == cut;
  }

  /**
   However a day's readings are cut into hours, the bank after
   each hour is the flat gain from zero of all readings so far.
   */
  lemma {:induction false} BankingIgnoresTheCut(starts: seq<int>, chunks: seq<seq<real>>)
    requires |starts| == |chunks|
    ensures Banked(Cut(starts, chunks)) == Gain([0.0] + Flat(chunks))
    ensures PrevLast(Cut(starts, chunks)) == ([0.0] + Flat(chunks))[|Flat(chunks)|]
  {
    if chunks != [] {
      var n := |chunks| - 1;
      BankingIgnoresTheCut(starts[..n], chunks[..n]);
      var before := [0.0] + Flat(chunks[..n]);
      FlatNext(chunks);
      if chunks[n] == [] {
        assert Cut(starts, chunks) == Cut(starts[..n], chunks[..n]);
      } else {
        BankNextChunk(Cut(starts[..n], chunks[..n]), before, starts[n], chunks[n]);
      }
    }
  }

  lemma {:induction false} FlatNext(chunks: seq<seq<real>>)
    requires chunks != []
    ensures var n := |chunks| - 1;
            && [0.0] + Flat(chunks) == [0.0] + Flat(chunks[..n]) + chunks[n]
            && (chunks[n] == [] ==> Flat(chunks) == Flat(chunks[..n]))
  {}

  // ---------------------------------------------------------------- the map of a day's banks

  ghost predicate Rising(starts: seq<int>) {
    forall i, j | 0 <= i < j < |starts| :: starts[i] < starts[j]
  }

  /** Hour `k` of the cut has readings and begins at `start`. */
  ghost predicate HourAt(starts: seq<int>, chunks: seq<seq<real>>, k: int, start: int)
    requires |starts| == |chunks|
  {
    0 <= k < |chunks| && chunks[k] != [] && starts[k] == start
  }

  ghost predicate IsAnHour(starts: seq<int>, chunks: seq<seq<real>>, start: int)
    requires |starts| == |chunks|
  {
    exists k :: HourAt(starts, chunks, k, start)
  }

  lemma {:induction false} CutPrefix(starts: seq<int>, chunks: seq<seq<real>>, k: nat)
    requires |starts| == |chunks| && k <= |chunks|
    ensures Cut(starts[..k], chunks[..k]) <= Cut(starts, chunks)
    decreases |chunks|
  {
    if k < |chunks| {
      var n := |chunks| - 1;
      CutPrefix(starts[..n], chunks[..n], k);
      assert starts[..n][..k] == starts[..k] && chunks[..n][..k] == chunks[..k];
    } else {
      assert starts[..k] == starts && chunks[..k] == chunks;
    }
  }

  lemma {:induction false} CutLast(starts: seq<int>, chunks: seq<seq<real>>)
    requires |starts| == |chunks| > 0
    ensures var n := |chunks| - 1;
            var init := Cut(starts[..n], chunks[..n]);
            if chunks[n] == [] then Cut(starts, chunks) == init
            else
              && |Cut(starts, chunks)| == |init| + 1 && Cut(starts, chunks)[..|init|] == init
              && Cut(starts, chunks)[|init|].start == starts[n]
  {
    var n := |chunks| - 1;
    assert RegisterOf(starts[n], chunks[n]).Some? <==> chunks[n] != [];
  }

  ghost predicate StartWithHours(cut: seq<HourRegister>, starts: seq<int>, chunks: seq<seq<real>>)
    requires |starts| == |chunks|
  {
    forall i | 0 <= i < |cut| :: IsAnHour(starts, chunks, cut[i].start)
  }

  lemma {:induction false} CutStarts(starts: seq<int>, chunks: seq<seq<real>>)
    requires |starts| == |chunks|
    ensures StartWithHours(Cut(starts, chunks), starts, chunks)
  {
    if chunks != [] {
      var n := |chunks| - 1;
      CutStarts(starts[..n], chunks[..n]);
      CutLast(starts, chunks);
      var init, cut := Cut(starts[..n], chunks[..n]), Cut(starts, chunks);
      forall i | 0 <= i < |cut| ensures IsAnHour(starts, chunks, cut[i].start) {
        if i < |init| {
          assert cut[i] == init[i];
          assert IsAnHour(starts[..n], chunks[..n], init[i].start);
          var k :| HourAt(starts[..n], chunks[..n], k, init[i].start);
          assert HourAt(starts, chunks, k, cut[i].start);
        } else {
          assert HourAt(starts, chunks, n, cut[i].start);
        }
      }
      assert StartWithHours(cut, starts, chunks);
    }
  }

  ghost predicate RegistersRise(cut: seq<HourRegister>) {
    forall i, j | 0 <= i < j < |cut| :: cut[i].start < cut[j].start
  }

  lemma {:induction false} CutRises(starts: seq<int>, chunks: seq<seq<real>>)
    requires |starts| == |chunks| && Rising(starts)
    ensures RegistersRise(Cut(starts, chunks))
  {
    if chunks != [] {
      var n := |chunks| - 1;
      CutRises(starts[..n], chunks[..n]);
      CutStarts(starts[..n], chunks[..n]);
      CutLast(starts, chunks);
      var init, cut := Cut(starts[..n], chunks[..n]), Cut(starts, chunks);
      forall i, j | 0 <= i < j < |cut| ensures cut[i].start < cut[j].start {
        assert cut[i] == init[i];
        if j < |init| {
          assert cut[j] == init[j];
        } else {
          assert IsAnHour(starts[..n], chunks[..n], init[i].start);
          var k :| HourAt(starts[..n], chunks[..n], k, init[i].start);
          assert starts[..n][k] == starts[k] < starts[n];
        }
      }
    }
  }

  lemma {:induction false} CutIsSorted(starts: seq<int>, chunks: seq<seq<real>>)
    requires |starts| == |chunks| && Rising(starts)
    ensures Sort(RegisterLe, Cut(starts, chunks)) == Cut(starts, chunks)
  {
    CutRises(starts, chunks);
    SortOfSorted(RegisterLe, Cut(starts, chunks));
  }

  /**
   The map of a day's banks holds, for every hour with a reading and for nothing else, the flat gain from
   zero of all readings to the end of that hour.
   */
  lemma {:induction false} BankMapIsTheFlatGain(starts: seq<int>, chunks: seq<seq<real>>, out: map<int, real>)
    requires |starts| == |chunks| && Rising(starts) && BanksOf(Sort(RegisterLe, Cut(starts, chunks)), out)
    ensures forall start :: start in out <==> IsAnHour(starts, chunks, start)
    ensures forall k | 0 <= k < |chunks| && chunks[k] != [] ::
      starts[k] in out && out[starts[k]] == Gain([0.0] + Flat(chunks[..k + 1]))
  {
    CutIsSorted(starts, chunks);
    CutStarts(starts, chunks);
    var cut := Cut(starts, chunks);
    forall k | 0 <= k < |chunks| && chunks[k] != []
      ensures starts[k] in out && out[starts[k]] == Gain([0.0] + Flat(chunks[..k + 1]))
    {
      BankOfHour(starts, chunks, out, k);
    }
    forall start ensures start in out <==> IsAnHour(starts, chunks, start) {
      if start in out {
        var j :| 0 <= j < |cut| && cut[j].start == start;
        assert IsAnHour(starts, chunks, cut[j].start);
      }
      if k :| HourAt(starts, chunks, k, start) { assert starts[k] in out; }
    }
  }

  lemma {:induction false} BankOfHour(starts: seq<int>, chunks: seq<seq<real>>, out: map<int, real>, k: nat)
    requires |starts| == |chunks| && Rising(starts) && BanksOf(Cut(starts, chunks), out)
    requires k < |chunks| && chunks[k] != []
    ensures starts[k] in out && out[starts[k]] == Gain([0.0] + Flat(chunks[..k + 1]))
  {
    var cut := Cut(starts, chunks);
    var upTo := Cut(starts[..k + 1], chunks[..k + 1]);
    CutPrefix(starts, chunks, k + 1);
    CutRises(starts, chunks);
    CutLast(starts[..k + 1], chunks[..k + 1]);
    BankAtPrefix(cut, upTo, out);
    BankingIgnoresTheCut(starts[..k + 1], chunks[..k + 1]);
  }

  lemma {:induction false} BankAtPrefix(cut: seq<HourRegister>, upTo: seq<HourRegister>, out: map<int, real>)
    requires RegistersRise(cut) && BanksOf(cut, out) && upTo != [] && upTo <= cut
    ensures var start := upTo[|upTo| - 1].start; start in out && out[start] == Banked(upTo)
  {
    var j := |upTo| - 1;
    assert LastOfItsStart(cut, j);
    assert cut[..j + 1] == upTo;
  }

  lemma {:induction false} FlatPrefix(chunks: seq<seq<real>>, k: nat)
    requires k <= |chunks|
    ensures Flat(chunks[..k]) <= Flat(chunks)
    decreases |chunks|
  {
    if k < |chunks| {
      var n := |chunks| - 1;
      FlatPrefix(chunks[..n], k);
      assert chunks[..n][..k] == chunks[..k];
    } else {
      assert chunks[..k] == chunks;
    }
  }

  /** More readings never lower the gain. */
  lemma {:induction false} GainGrows(chunks: seq<seq<real>>, k: nat)
    requires k <= |chunks|
    ensures 0.0 <= Gain([0.0] + Flat(chunks[..k])) <= Gain([0.0] + Flat(chunks))
  {
    FlatPrefix(chunks, k);
    var a := [0.0] + Flat(chunks[..k]);
    var b := Flat(chunks)[|Flat(chunks[..k])|..];
    assert a + b == [0.0] + Flat(chunks);
    GainIsNotNegative(a);
    GainIsNotNegative(b);
    if b == [] { assert a + b == a; } else { GainConcat(a, b); }
  }

  /** Two ways of cutting the same readings bank alike. */
  lemma {:induction false} CutsBankAlike(s1: seq<int>, c1: seq<seq<real>>, s2: seq<int>, c2: seq<seq<real>>)
    requires |s1| == |c1| && |s2| == |c2| && Flat(c1) == Flat(c2)
    ensures Banked(Cut(s1, c1)) == Banked(Cut(s2, c2))
  {
    BankingIgnoresTheCut(s1, c1);
    BankingIgnoresTheCut(s2, c2);
  }

  lemma {:induction false} GainIsNotNegative(values: seq<real>)
    ensures Gain(values) >= 0.0
  {
    if |values| >= 2 { GainIsNotNegative(values[..|values| - 1]); }
  }

  /** A bank never falls and is never below zero: what the day's bound takes for granted of a counter. */
  lemma {:induction false} BankNeverFalls(hours: seq<HourRegister>, i: nat, j: nat)
    requires i <= j <= |hours| && forall k | 0 <= k < |hours| :: hours[k].gain >= 0.0
    ensures 0.0 <= Banked(hours[..i]) <= Banked(hours[..j])
    decreases j
  {
    if i < j {
      BankNeverFalls(hours, i, j - 1);
      assert hours[..j][..j - 1] == hours[..j - 1];
    } else if j > 0 {
      BankNeverFalls(hours, i - 1, j - 1);
      assert hours[..j][..j - 1] == hours[..j - 1];
    }
  }

  ghost predicate NeverFell(values: seq<real>) {
    forall i, j | 0 <= i < j < |values| :: values[i] <= values[j]
  }

  /** A register that never fell banks to its highest reading. */
  lemma {:induction false} NeverFellBanksToHighest(values: seq<real>)
    requires values != [] && NeverFell(values)
    ensures Gain(values) == values[|values| - 1] - values[0]
  {
    if |values| > 1 {
      NeverFellBanksToHighest(values[..|values| - 1]);
    }
  }

  /**
   Cut into hours however it may be, a register that starts at nothing and never fell banks to its highest reading.
   */
  lemma {:induction false} UnbrokenRegisterBanksToHighest(starts: seq<int>, chunks: seq<seq<real>>)
    requires |starts| == |chunks| && NeverFell([0.0] + Flat(chunks))
    ensures Flat(chunks) != [] ==> Banked(Cut(starts, chunks)) == Flat(chunks)[|Flat(chunks)| - 1]
    ensures forall v | v in Flat(chunks) :: v <= Banked(Cut(starts, chunks))
  {
    var all := [0.0] + Flat(chunks);
    BankingIgnoresTheCut(starts, chunks);
    NeverFellBanksToHighest(all);
    forall v | v in Flat(chunks) ensures v <= all[|all| - 1] {
      var i :| 0 <= i < |Flat(chunks)| && Flat(chunks)[i] == v;
      assert all[i + 1] == v;
    }
  }

  // ---------------------------------------------------------------- bounding a day

  datatype HourAgg = HourAgg(start: int, energy: Option<real>, powerAvg: Option<real>, powerMax: Option<real>)
  datatype ClippedHour = ClippedHour(start: int, rise: real, credited: real, dayPeakW: real)
  datatype BoundedDay = BoundedDay(energy: Option<real>, counter: Option<real>, removed: Option<real>,
    clipped: seq<ClippedHour>)

  function DayPeak(hours: seq<HourAgg>): (p: Option<real>)
    ensures p.None? <==> forall i | 0 <= i < |hours| :: hours[i].powerMax.None?
    ensures p.Some? ==> exists i :: 0 <= i < |hours| && hours[i].powerMax == p
    ensures forall i | 0 <= i < |hours| && hours[i].powerMax.Some? :: p.Some? && hours[i].powerMax.value <= p.value
  {
    if hours == [] then None
    else
      var rest := DayPeak(hours[1..]);
      if hours[0].powerMax.None? then
        assert forall i | 1 <= i < |hours| :: hours[i] == hours[1..][i - 1];
        assert forall i | 0 <= i < |hours[1..]| :: hours[1..][i] == hours[i + 1];
        rest
      else
        assert forall i | 1 <= i < |hours| :: hours[i] == hours[1..][i - 1];
        if rest.None? then hours[0].powerMax
        else
          assert forall i | 0 <= i < |hours[1..]| :: hours[1..][i] == hours[i + 1];
          Some(MaxR(hours[0].powerMax.value, rest.value))
  }

  predicate AggLe(a: HourAgg, b: HourAgg) { a.start <= b.start }
  predicate Carries(h: HourAgg) { h.energy.Some? }

  /** The hours that carry a counter, in order. */
  function Counted(hours: seq<HourAgg>): seq<HourAgg> {
    Sort(AggLe, Filter(Carries, hours))
  }

  ghost predicate AllCarry(s: seq<HourAgg>) {
    forall i | 0 <= i < |s| :: s[i].energy.Some?
  }

  ghost function PrevE(s: seq<HourAgg>): real
    requires AllCarry(s)
  {
    if s == [] then 0.0 else s[|s| - 1].energy.value
  }

  ghost function PrevStart(s: seq<HourAgg>, dayStart: int): int {
    if s == [] then dayStart - HOUR_MS else s[|s| - 1].start
  }

  function Hours(ms: int): real { ms as real / 3600000.0 }

  /** The most a circuit whose highest power is `peak` could have drawn over `span` hours, with an hour to spare. */
  function Cap(peak: real, span: real): real {
    (peak / 1000.0) * (span + 1.0) * CEILING_FACTOR + CEILING_SLACK_KWH
  }

  /** A day's rule: its highest power, the most drawn over a span, and an average power held over a span. */
  datatype Rule = Rule(peak: Option<real>, cap: real -> real, drawn: (real, real) -> real)

  function RuleFor(peak: Option<real>): Rule {
    Rule(peak, span => Cap(peak.GetOr(0.0), span), (watts, span) => (watts / 1000.0) * span)
  }

  predicate Clips(rule: Rule, span: real, rise: real) {
    rise > 0.0 && rule.peak.Some? && rule.peak.value > 0.0 && rise > rule.cap(span)
  }

  /**
   What an hour adds: nothing for a fall, a possible rise whole, an
   impossible one at the hour's own average power within the cap.
   */
  function Credit(rule: Rule, span: real, rise: real, avg: Option<real>): real {
    if rise <= 0.0 then 0.0
    else if Clips(rule, span, rise) then MinR(rule.cap(span), rule.drawn(avg.GetOr(0.0), span))
    else rise
  }

  ghost function SpanOf(s: seq<HourAgg>, dayStart: int): real
    requires s != []
  {
    Hours(s[|s| - 1].start - PrevStart(s[..|s| - 1], dayStart))
  }

  ghost function RiseOf(s: seq<HourAgg>): real
    requires s != [] && AllCarry(s)
  {
    s[|s| - 1].energy.value - PrevE(s[..|s| - 1])
  }

  ghost function Energy(s: seq<HourAgg>, rule: Rule, dayStart: int): real
    requires AllCarry(s)
  {
    if s == [] then 0.0
    else Energy(s[..|s| - 1], rule, dayStart) + Credit(rule, SpanOf(s, dayStart), RiseOf(s), s[|s| - 1].powerAvg)
  }

  ghost function ClippedIn(s: seq<HourAgg>, rule: Rule, dayStart: int): seq<ClippedHour>
    requires AllCarry(s)
  {
    if s == [] then []
    else
      var before := ClippedIn(s[..|s| - 1], rule, dayStart);
      var span, rise := SpanOf(s, dayStart), RiseOf(s);
      if Clips(rule, span, rise)
      then before + [ClippedHour(s[|s| - 1].start, rise, Credit(rule, span, rise, s[|s| - 1].powerAvg),
        rule.peak.value)]
      else before
  }

  /** The highest of the counter's values. */
  ghost function Highest(s: seq<HourAgg>): real
    requires s != [] && AllCarry(s)
  {
    if |s| == 1 then s[0].energy.value else MaxR(Highest(s[..|s| - 1]), s[|s| - 1].energy.value)
  }

  ghost function Bounded(hours: seq<HourAgg>, dayStart: int): BoundedDay {
    var s := Counted(hours);
    CountedCarry(hours);
    if s == [] then BoundedDay(None, None, None, [])
    else
      var rule := RuleFor(DayPeak(hours));
      var energy, clipped := Energy(s, rule, dayStart), ClippedIn(s, rule, dayStart);
      var removed := if clipped == [] then None else Some(Pos(Highest(s) - energy));
      BoundedDay(Some(energy), Some(Highest(s)), removed, clipped)
  }

  lemma {:induction false} CountedCarry(hours: seq<HourAgg>)
    ensures AllCarry(Counted(hours)) && SortedBy(AggLe, Counted(hours))
    ensures forall h :: h in Counted(hours) <==> h in hours && h.energy.Some?
  {
    FilterMembers(Carries, hours);
    SortElements(AggLe, Filter(Carries, hours));
    SortSorted(AggLe, Filter(Carries, hours));
    forall i | 0 <= i < |Counted(hours)| ensures Counted(hours)[i].energy.Some? {
      assert Counted(hours)[i] in Counted(hours);
    }
  }

  method BoundDay(hours: seq<HourAgg>, dayStart: int) returns (day: BoundedDay)
    ensures day == Bounded(hours, dayStart)
  {
    var rule := RuleFor(DayPeak(hours));
    var counted := Counted(hours);
    CountedCarry(hours);
    if |counted| == 0 { return BoundedDay(None, None, None, []); }
    var energy, counter, clipped := BoundHours(counted, rule, dayStart);
    var removed := if |clipped| > 0 then Some(Pos(counter - energy)) else None;
    day := BoundedDay(Some(energy), Some(counter), removed, clipped);
  }

  method BoundHours(counted: seq<HourAgg>, rule: Rule, dayStart: int)
    returns (energy: real, counter: real, clipped: seq<ClippedHour>)
    requires counted != [] && AllCarry(counted)
    ensures energy == Energy(counted, rule, dayStart) && counter == Highest(counted)
    ensures clipped == ClippedIn(counted, rule, dayStart)
  {
    energy, clipped := 0.0, [];
    var highest: Option<real> := None;
    var prevE, prevStart := 0.0, dayStart - HOUR_MS;
    for i := 0 to |counted|
      invariant prevE == PrevE(counted[..i]) && prevStart == PrevStart(counted[..i], dayStart)
      invariant energy == Energy(counted[..i], rule, dayStart)
      invariant clipped == ClippedIn(counted[..i], rule, dayStart)
      invariant highest == if i == 0 then None else Some(Highest(counted[..i]))
    {
      var hour := counted[i];
      assert counted[..i + 1][..i] == counted[..i];
      var e := hour.energy.value;
      highest := Some(if highest.None? then e else MaxR(highest.value, e));
      var span := Hours(hour.start - prevStart);
      var rise := e - prevE;
      if rise > 0.0 {
        if rule.peak.Some? && rule.peak.value > 0.0 && rise > rule.cap(span) {
          var credited := MinR(rule.cap(span), rule.drawn(hour.powerAvg.GetOr(0.0), span));
          energy := energy + credited;
          clipped := clipped + [ClippedHour(hour.start, rise, credited, rule.peak.value)];
        } else {
          energy := energy + rise;
        }
      }
      prevE := e;
      prevStart := hour.start;
    }
    assert counted[..|counted|] == counted;
    counter := highest.value;
  }

  // ---------------------------------------------------------------- the day in figures

  /** What the counter rose by since the counted hour before, or since nothing at midnight. */
  ghost function RiseAt(s: seq<HourAgg>, i: nat): real
    requires AllCarry(s) && i < |s|
  {
    s[i].energy.value - if i == 0 then 0.0 else s[i - 1].energy.value
  }

  /** The hours since the counted hour before, or since an hour before midnight. */
  ghost function SpanAt(s: seq<HourAgg>, dayStart: int, i: nat): real
    requires i < |s|
  {
    (s[i].start - if i == 0 then dayStart - 3600000 else s[i - 1].start) as real / 3600000.0
  }

  /** The most a circuit could have drawn: its highest power for the span and an hour more, a tenth over, and 5 Wh. */
  ghost function Possible(peak: real, span: real): real { (peak / 1000.0) * (span + 1.0) * 1.1 + 0.005 }

  /** The rise of hour `i` is more than the circuit could have drawn. */
  ghost predicate Impossible(s: seq<HourAgg>, peak: Option<real>, dayStart: int, i: nat)
    requires AllCarry(s) && i < |s|
  {
    && RiseAt(s, i) > 0.0 && peak.Some? && peak.value > 0.0
    && RiseAt(s, i) > Possible(peak.value, SpanAt(s, dayStart, i))
  }

  /**
   What hour `i` is credited: a possible rise whole, an impossible
   one at the hour's own average power, a fall nothing.
   */
  ghost function CreditAt(s: seq<HourAgg>, peak: Option<real>, dayStart: int, i: nat): real
    requires AllCarry(s) && i < |s|
  {
    if RiseAt(s, i) <= 0.0 then 0.0
    else if !Impossible(s, peak, dayStart, i) then RiseAt(s, i)
    else
      var span := SpanAt(s, dayStart, i);
      var drawn := (match s[i].powerAvg case None => 0.0 case Some(watts) => watts / 1000.0 * span);
      if drawn < Possible(peak.value, span) then drawn else Possible(peak.value, span)
  }

  ghost function CreditedUpTo(s: seq<HourAgg>, peak: Option<real>, dayStart: int, n: nat): real
    requires AllCarry(s) && n <= |s|
  {
    if n == 0 then 0.0 else CreditedUpTo(s, peak, dayStart, n - 1) + CreditAt(s, peak, dayStart, n - 1)
  }

  /** The clipped hours are those of the first `n` whose rise is impossible, in order; `at` says which hour each is. */
  ghost predicate ClippedAre(s: seq<HourAgg>, peak: Option<real>, dayStart: int, n: nat, clipped: seq<ClippedHour>,
        at: seq<nat>)
    requires AllCarry(s) && n <= |s|
  {
    && |at| == |clipped|
    && (forall k | 0 <= k < |at| :: at[k] < n && ClippedIs(s, peak, dayStart, at[k], clipped[k]))
    && (forall k, l | 0 <= k < l < |at| :: at[k] < at[l])
    && (forall i: nat | i < n && Impossible(s, peak, dayStart, i) :: i in at)
  }

  ghost predicate ClippedIs(s: seq<HourAgg>, peak: Option<real>, dayStart: int, i: nat, c: ClippedHour)
    requires AllCarry(s) && i < |s|
  {
    && Impossible(s, peak, dayStart, i)
    && c == ClippedHour(s[i].start, RiseAt(s, i), CreditAt(s, peak, dayStart, i), peak.value)
  }

  lemma {:induction false} HourInFigures(s: seq<HourAgg>, peak: Option<real>, dayStart: int, i: nat)
    requires AllCarry(s) && i < |s|
    ensures var upTo, rule := s[..i + 1], RuleFor(peak);
            && RiseOf(upTo) == RiseAt(s, i) && SpanOf(upTo, dayStart) == SpanAt(s, dayStart, i)
            && (Clips(rule, SpanOf(upTo, dayStart), RiseOf(upTo)) <==> Impossible(s, peak, dayStart, i))
            && Credit(rule, SpanOf(upTo, dayStart), RiseOf(upTo), s[i].powerAvg) == CreditAt(s, peak, dayStart, i)
  {
    assert s[..i + 1][..i] == s[..i];
    assert 0.0 / 1000.0 * SpanAt(s, dayStart, i) == 0.0;
  }

  lemma {:induction false} EnergyInFigures(s: seq<HourAgg>, peak: Option<real>, dayStart: int, n: nat)
    requires AllCarry(s) && n <= |s|
    ensures Energy(s[..n], RuleFor(peak), dayStart) == CreditedUpTo(s, peak, dayStart, n)
  {
    if n > 0 {
      EnergyInFigures(s, peak, dayStart, n - 1);
      HourInFigures(s, peak, dayStart, n - 1);
      assert s[..n][..n - 1] == s[..n - 1];
    }
  }

  lemma {:induction false} ClippedInFigures(s: seq<HourAgg>, peak: Option<real>, dayStart: int, n: nat)
    returns (at: seq<nat>)
    requires AllCarry(s) && n <= |s|
    ensures ClippedAre(s, peak, dayStart, n, ClippedIn(s[..n], RuleFor(peak), dayStart), at)
  {
    if n == 0 {
      at := [];
    } else {
      var before := ClippedInFigures(s, peak, dayStart, n - 1);
      HourInFigures(s, peak, dayStart, n - 1);
      assert s[..n][..n - 1] == s[..n - 1];
      at := if Impossible(s, peak, dayStart, n - 1) then before + [n - 1] else before;
      OneMoreClipped(s, peak, dayStart, n, ClippedIn(s[..n - 1], RuleFor(peak), dayStart), before);
    }
  }

  lemma {:induction false} OneMoreClipped(s: seq<HourAgg>, peak: Option<real>, dayStart: int, n: nat,
        clipped: seq<ClippedHour>,
                                          at: seq<nat>)
    requires AllCarry(s) && 0 < n <= |s| && ClippedAre(s, peak, dayStart, n - 1, clipped, at)
    ensures if Impossible(s, peak, dayStart, n - 1)
            then
              var c := ClippedHour(s[n - 1].start, RiseAt(s, n - 1), CreditAt(s, peak, dayStart, n - 1), peak.value);
              ClippedAre(s, peak, dayStart, n, clipped + [c], at + [n - 1])
            else ClippedAre(s, peak, dayStart, n, clipped, at)
  {
    if Impossible(s, peak, dayStart, n - 1) {
      assert (at + [n - 1])[|at|] == n - 1;
      forall i: nat | i < n && Impossible(s, peak, dayStart, i) ensures i in at + [n - 1] {
        assert i < n - 1 ==> i in at;
      }
    }
  }

  ghost predicate IsHighest(s: seq<HourAgg>, v: real)
    requires AllCarry(s)
  {
    (exists i :: 0 <= i < |s| && s[i].energy.value == v) && forall i | 0 <= i < |s| :: s[i].energy.value <= v
  }

  lemma {:induction false} HighestIsHighest(s: seq<HourAgg>)
    requires s != [] && AllCarry(s)
    ensures IsHighest(s, Highest(s))
  {
    if |s| > 1 {
      var n := |s| - 1;
      HighestIsHighest(s[..n]);
      var i :| 0 <= i < n && s[..n][i].energy.value == Highest(s[..n]);
      assert s[i].energy.value == Highest(s[..n]);
      assert forall j | 0 <= j < n :: s[j] == s[..n][j];
    }
  }

  /**
   A day in figures: its energy is what its counted hours are credited, hour by hour; its clipped hours are those
   with an impossible rise, in order, each with its rise and credit; its counter is the highest value, and what was
   removed is the difference.
   */
  ghost predicate InFigures(day: BoundedDay, s: seq<HourAgg>, peak: Option<real>, dayStart: int, at: seq<nat>)
    requires AllCarry(s)
  {
    && ClippedAre(s, peak, dayStart, |s|, day.clipped, at)
    && if s == [] then day.energy.None? && day.counter.None? && day.removed.None?
       else
         && day.energy == Some(CreditedUpTo(s, peak, dayStart, |s|))
         && day.counter.Some? && IsHighest(s, day.counter.value)
         && day.removed == if day.clipped == [] then None
                           else if day.counter.value < day.energy.value then Some(0.0)
                           else Some(day.counter.value - day.energy.value)
  }

  /** Every day is so, over its hours that carry a counter, in order. */
  lemma {:induction false} TheDayInFigures(hours: seq<HourAgg>, dayStart: int) returns (at: seq<nat>)
    ensures var s := Counted(hours);
            AllCarry(s) && forall i, j | 0 <= i < j < |s| :: s[i].start <= s[j].start
    ensures multiset(Counted(hours)) == multiset(Filter(Carries, hours))
    ensures InFigures(Bounded(hours, dayStart), Counted(hours), DayPeak(hours), dayStart, at)
  {
    CountedCarry(hours);
    SortElements(AggLe, Filter(Carries, hours));
    at := DayOfCounted(hours, Counted(hours), DayPeak(hours), dayStart);
  }

  lemma {:induction false} DayOfCounted(hours: seq<HourAgg>, s: seq<HourAgg>, peak: Option<real>, dayStart: int)
    returns (at: seq<nat>)
    requires AllCarry(s) && s == Counted(hours) && peak == DayPeak(hours)
    ensures InFigures(Bounded(hours, dayStart), s, peak, dayStart, at)
  {
    assert s[..|s|] == s;
    EnergyInFigures(s, peak, dayStart, |s|);
    at := ClippedInFigures(s, peak, dayStart, |s|);
    EnergyAndClippedOf(hours, s, peak, dayStart);
    if s != [] { HighestIsHighest(s); }
  }

  // ---------------------------------------------------------------- conservation and ceiling

  ghost function Rises(s: seq<HourAgg>): real
    requires AllCarry(s)
  {
    if s == [] then 0.0 else Rises(s[..|s| - 1]) + Pos(RiseOf(s))
  }

  /** What clipping took away. */
  ghost function Lost(clipped: seq<ClippedHour>): real {
    if clipped == [] then 0.0
    else Lost(clipped[..|clipped| - 1]) + (clipped[|clipped| - 1].rise - clipped[|clipped| - 1].credited)
  }

  lemma {:induction false} LastHourLoses(s: seq<HourAgg>, rule: Rule, dayStart: int)
    requires s != [] && AllCarry(s)
    ensures var lost := Lost(ClippedIn(s, rule, dayStart)) - Lost(ClippedIn(s[..|s| - 1], rule, dayStart));
      && Energy(s, rule, dayStart) + lost == Energy(s[..|s| - 1], rule, dayStart) + Pos(RiseOf(s))
      && lost >= 0.0 && (ClippedIn(s, rule, dayStart) != ClippedIn(s[..|s| - 1], rule, dayStart) ==> lost > 0.0)
  {
    var before, now := ClippedIn(s[..|s| - 1], rule, dayStart), ClippedIn(s, rule, dayStart);
    if Clips(rule, SpanOf(s, dayStart), RiseOf(s)) {
      assert now[..|before|] == before;
    }
  }

  /** Whatever the register does, what is credited and what is clipped away add up to what it rose. */
  lemma {:induction false} CreditedAndLostAreTheRises(s: seq<HourAgg>, rule: Rule, dayStart: int)
    requires AllCarry(s)
    ensures Energy(s, rule, dayStart) + Lost(ClippedIn(s, rule, dayStart)) == Rises(s)
    ensures Lost(ClippedIn(s, rule, dayStart)) >= 0.0
    ensures ClippedIn(s, rule, dayStart) != [] ==> Lost(ClippedIn(s, rule, dayStart)) > 0.0
  {
    if s != [] {
      CreditedAndLostAreTheRises(s[..|s| - 1], rule, dayStart);
      LastHourLoses(s, rule, dayStart);
    }
  }

  /** A register as banking leaves it: never below zero, never falling. */
  ghost predicate IsBanked(s: seq<HourAgg>) {
    AllCarry(s) && (forall i | 0 <= i < |s| :: s[i].energy.value >= 0.0)
    && (forall i, j | 0 <= i < j < |s| :: s[i].energy.value <= s[j].energy.value)
  }

  lemma {:induction false} BankedRisesToItsCounter(s: seq<HourAgg>)
    requires s != [] && IsBanked(s)
    ensures Rises(s) == s[|s| - 1].energy.value == Highest(s)
  {
    if |s| > 1 {
      BankedRisesToItsCounter(s[..|s| - 1]);
    } else {
      assert s[..0] == [];
    }
  }

  /**
   Over a banked register nothing is lost unsaid: energy and clipped
   excess are the counter, and the excess is what is reported removed.
   */
  lemma {:induction false} ConservationOverABankedDay(hours: seq<HourAgg>, dayStart: int)
    requires Counted(hours) != [] && IsBanked(Counted(hours))
    ensures var day := Bounded(hours, dayStart);
            && day.energy.Some? && day.counter.Some?
            && day.energy.value + Lost(day.clipped) == day.counter.value
            && day.removed == (if day.clipped == [] then None else Some(Lost(day.clipped)))
            && (day.clipped == [] <==> day.energy == day.counter)
  {
    var s := Counted(hours);
    CountedCarry(hours);
    CreditedAndLostAreTheRises(s, RuleFor(DayPeak(hours)), dayStart);
    BankedRisesToItsCounter(s);
  }

  /** The hours of a day carry its banks: each counter is what the map holds for its hour. */
  ghost predicate CarryTheBanks(hours: seq<HourAgg>, out: map<int, real>) {
    forall h | h in hours && h.energy.Some? :: h.start in out && h.energy.value == out[h.start]
  }

  lemma {:induction false} CountedBank(hours: seq<HourAgg>, starts: seq<int>, chunks: seq<seq<real>>,
        out: map<int, real>, i: nat) returns (k: nat)
    requires |starts| == |chunks| && Rising(starts) && BanksOf(Sort(RegisterLe, Cut(starts, chunks)), out)
      && CarryTheBanks(hours, out)
    requires i < |Counted(hours)|
    ensures k < |chunks| && chunks[k] != [] && starts[k] == Counted(hours)[i].start
    ensures Counted(hours)[i].energy == Some(Gain([0.0] + Flat(chunks[..k + 1])))
  {
    CountedCarry(hours);
    BankMapIsTheFlatGain(starts, chunks, out);
    var h := Counted(hours)[i];
    assert h in Counted(hours);
    k :| HourAt(starts, chunks, k, h.start);
  }

  /** A day that carries the banks of its readings has a register that is never negative and never falls. */
  lemma {:induction false} BanksAreBanked(hours: seq<HourAgg>, starts: seq<int>, chunks: seq<seq<real>>,
        out: map<int, real>)
    requires |starts| == |chunks| && Rising(starts) && BanksOf(Sort(RegisterLe, Cut(starts, chunks)), out)
      && CarryTheBanks(hours, out)
    ensures IsBanked(Counted(hours))
  {
    CountedCarry(hours);
    var s := Counted(hours);
    forall i | 0 <= i < |s| ensures s[i].energy.value >= 0.0 {
      BanksRise(hours, starts, chunks, out, i, i);
    }
    forall i, j | 0 <= i < j < |s| ensures s[i].energy.value <= s[j].energy.value {
      BanksRise(hours, starts, chunks, out, i, j);
    }
  }

  lemma {:induction false} BanksRise(hours: seq<HourAgg>, starts: seq<int>, chunks: seq<seq<real>>, out: map<int, real>,
        i: nat, j: nat)
    requires |starts| == |chunks| && Rising(starts) && BanksOf(Sort(RegisterLe, Cut(starts, chunks)), out)
      && CarryTheBanks(hours, out)
    requires i <= j < |Counted(hours)|
    ensures var s := Counted(hours);
            s[i].energy.Some? && s[j].energy.Some? && 0.0 <= s[i].energy.value <= s[j].energy.value
  {
    CountedCarry(hours);
    var s := Counted(hours);
    var k := CountedBank(hours, starts, chunks, out, i);
    var l := CountedBank(hours, starts, chunks, out, j);
    assert i == j || AggLe(s[i], s[j]);
    StartsInOrder(starts, k, l);
    GainUpTo(chunks, k, l);
  }

  lemma {:induction false} StartsInOrder(starts: seq<int>, k: nat, l: nat)
    requires Rising(starts) && k < |starts| && l < |starts| && starts[k] <= starts[l]
    ensures k <= l
  {}

  lemma {:induction false} GainUpTo(chunks: seq<seq<real>>, k: nat, l: nat)
    requires k <= l < |chunks|
    ensures 0.0 <= Gain([0.0] + Flat(chunks[..k + 1])) <= Gain([0.0] + Flat(chunks[..l + 1]))
  {
    GainGrows(chunks[..l + 1], k + 1);
    assert chunks[..l + 1][..k + 1] == chunks[..k + 1];
  }

  /**
   From the raw readings to the day's figure: banked hour by hour and bounded, what is credited and what is
   clipped away add up to the gain from zero of every reading of the day, however the hours cut it and
   whatever resets it holds.
   */
  lemma {:induction false} ReadingsAreCreditedOrClipped(hours: seq<HourAgg>, dayStart: int, starts: seq<int>,
        chunks: seq<seq<real>>, out: map<int, real>)
    requires |starts| == |chunks| && Rising(starts) && BanksOf(Sort(RegisterLe, Cut(starts, chunks)), out)
      && CarryTheBanks(hours, out)
    requires chunks != [] && chunks[|chunks| - 1] != []
    requires exists h :: h in hours && h.energy.Some? && h.start == starts[|starts| - 1]
    ensures var day := Bounded(hours, dayStart);
            && day.energy.Some? && day.counter == Some(Gain([0.0] + Flat(chunks)))
            && day.energy.value + Lost(day.clipped) == Gain([0.0] + Flat(chunks))
  {
    LastCountedBank(hours, starts, chunks, out);
    BanksAreBanked(hours, starts, chunks, out);
    ConservationOverABankedDay(hours, dayStart);
    CounterIsTheLast(hours, dayStart);
  }

  lemma {:induction false} CounterIsTheLast(hours: seq<HourAgg>, dayStart: int)
    requires Counted(hours) != [] && IsBanked(Counted(hours))
    ensures Bounded(hours, dayStart).counter == Counted(hours)[|Counted(hours)| - 1].energy
  {
    BankedRisesToItsCounter(Counted(hours));
  }

  lemma {:induction false} LastCountedBank(hours: seq<HourAgg>, starts: seq<int>, chunks: seq<seq<real>>,
        out: map<int, real>)
    requires |starts| == |chunks| && Rising(starts) && BanksOf(Sort(RegisterLe, Cut(starts, chunks)), out)
      && CarryTheBanks(hours, out)
    requires chunks != [] && chunks[|chunks| - 1] != []
    requires exists h :: h in hours && h.energy.Some? && h.start == starts[|starts| - 1]
    ensures Counted(hours) != []
    ensures Counted(hours)[|Counted(hours)| - 1].energy == Some(Gain([0.0] + Flat(chunks)))
  {
    var h :| h in hours && h.energy.Some? && h.start == starts[|starts| - 1];
    LastIsLatest(hours, h);
    LatestBank(hours, starts, chunks, out);
  }

  lemma {:induction false} LatestBank(hours: seq<HourAgg>, starts: seq<int>, chunks: seq<seq<real>>,
        out: map<int, real>)
    requires |starts| == |chunks| > 0 && Rising(starts) && BanksOf(Sort(RegisterLe, Cut(starts, chunks)), out)
      && CarryTheBanks(hours, out)
    requires Counted(hours) != [] && starts[|starts| - 1] <= Counted(hours)[|Counted(hours)| - 1].start
    ensures Counted(hours)[|Counted(hours)| - 1].energy == Some(Gain([0.0] + Flat(chunks)))
  {
    var k := CountedBank(hours, starts, chunks, out, |Counted(hours)| - 1);
    LastStart(starts, k);
    WholeCut(chunks, k);
  }

  lemma {:induction false} WholeCut(chunks: seq<seq<real>>, k: nat)
    requires k + 1 == |chunks|
    ensures chunks[..k + 1] == chunks
  {}

  lemma {:induction false} LastStart(starts: seq<int>, k: nat)
    requires Rising(starts) && k < |starts| && starts[|starts| - 1] <= starts[k]
    ensures k == |starts| - 1
  {}

  lemma {:induction false} LastIsLatest(hours: seq<HourAgg>, h: HourAgg)
    requires h in hours && h.energy.Some?
    ensures Counted(hours) != [] && h.start <= Counted(hours)[|Counted(hours)| - 1].start
  {
    CountedCarry(hours);
    var s := Counted(hours);
    assert h in s;
    var i :| 0 <= i < |s| && s[i] == h;
    assert i == |s| - 1 || AggLe(s[i], s[|s| - 1]);
  }

  /** The most every counted hour could have drawn. */
  ghost function Caps(s: seq<HourAgg>, rule: Rule, dayStart: int): real {
    if s == [] then 0.0 else Caps(s[..|s| - 1], rule, dayStart) + rule.cap(SpanOf(s, dayStart))
  }

  lemma {:induction false} EnergyWithinCaps(s: seq<HourAgg>, rule: Rule, dayStart: int)
    requires AllCarry(s) && SortedBy(AggLe, s) && rule.peak.Some? && rule.peak.value > 0.0
    requires AllFrom(s, dayStart)
    requires forall span | span >= 0.0 :: rule.cap(span) >= 0.0
    ensures Energy(s, rule, dayStart) <= Caps(s, rule, dayStart)
  {
    if s != [] {
      EnergyWithinCaps(s[..|s| - 1], rule, dayStart);
      assert |s| > 1 ==> AggLe(s[|s| - 2], s[|s| - 1]);
      assert SpanOf(s, dayStart) >= 0.0;
    }
  }

  /** The highest power for so long, and for an hour more at each of `n` hours, with the two allowances. */
  function Ceiling(peak: real, elapsedMs: int, n: int): real {
    (peak / 1000.0 * CEILING_FACTOR) * (Hours(elapsedMs) + n as real) + CEILING_SLACK_KWH * n as real
  }

  /** The spans telescope: together they run from an hour before the day to the last counted hour. */
  lemma {:induction false} CapsTelescope(s: seq<HourAgg>, peak: real, dayStart: int)
    ensures Caps(s, RuleFor(Some(peak)), dayStart) == Ceiling(peak, PrevStart(s, dayStart) - (dayStart - HOUR_MS), |s|)
  {
    var k := peak / 1000.0 * CEILING_FACTOR;
    if s == [] {
      assert k * 0.0 == 0.0;
    } else {
      var init := s[..|s| - 1];
      CapsTelescope(init, peak, dayStart);
      var span := SpanOf(s, dayStart);
      var elapsed := Hours(PrevStart(init, dayStart) - (dayStart - HOUR_MS));
      CapScales(peak, span);
      Distribute(k, elapsed + |init| as real, span + 1.0);
    }
  }

  lemma {:induction false} CapScales(peak: real, span: real)
    ensures RuleFor(Some(peak)).cap(span) == (peak / 1000.0 * CEILING_FACTOR) * (span + 1.0) + CEILING_SLACK_KWH
    ensures peak >= 0.0 && span >= 0.0 ==> RuleFor(Some(peak)).cap(span) >= 0.0
  {
    var p := peak / 1000.0;
    assert p * (span + 1.0) * CEILING_FACTOR == (p * CEILING_FACTOR) * (span + 1.0);
    if peak >= 0.0 && span >= 0.0 { NonNegative(p * CEILING_FACTOR, span + 1.0); }
  }

  lemma {:induction false} NonNegative(a: real, b: real)
    requires a >= 0.0 && b >= 0.0
    ensures a * b >= 0.0
  {}

  lemma {:induction false} Distribute(k: real, a: real, b: real)
    ensures k * (a + b) == k * a + k * b
  {}

  /**
   No register, however it jumps, makes a day cost more than its highest power for every hour to the last
   counted one and once more for each counted hour, with the two allowances.
   */
  lemma {:induction false} CeilingOverAnyDay(hours: seq<HourAgg>, dayStart: int)
    requires Counted(hours) != [] && DayPeak(hours).Some? && DayPeak(hours).value > 0.0
    requires forall h | h in hours :: dayStart <= h.start
    ensures var day, s := Bounded(hours, dayStart), Counted(hours);
            && day.energy.Some?
            && day.energy.value <= Ceiling(DayPeak(hours).value, PrevStart(s, dayStart) - (dayStart - HOUR_MS), |s|)
  {
    var s := Counted(hours);
    CountedCarry(hours);
    assert AllFrom(s, dayStart) by {
      forall i | 0 <= i < |s| ensures dayStart <= s[i].start { assert s[i] in s; }
    }
    EnergyCeiling(s, DayPeak(hours).value, dayStart);
  }

  ghost predicate AllFrom(s: seq<HourAgg>, dayStart: int) {
    forall i | 0 <= i < |s| :: dayStart <= s[i].start
  }

  lemma {:induction false} EnergyCeiling(s: seq<HourAgg>, peak: real, dayStart: int)
    requires AllCarry(s) && SortedBy(AggLe, s) && AllFrom(s, dayStart) && peak > 0.0
    ensures Energy(s, RuleFor(Some(peak)), dayStart) <=
      Ceiling(peak, PrevStart(s, dayStart) - (dayStart - HOUR_MS), |s|)
  {
    forall span | span >= 0.0 ensures RuleFor(Some(peak)).cap(span) >= 0.0 { CapScales(peak, span); }
    EnergyWithinCaps(s, RuleFor(Some(peak)), dayStart);
    CapsTelescope(s, peak, dayStart);
  }

  // ---------------------------------------------------------------- rows that kept only their highest reading

  /** How such a row is read: its highest reading as its first and its last, and nothing risen between. */
  function AsRegister(): HourAgg -> HourRegister {
    (h: HourAgg) => HourRegister(h.start, h.energy.GetOr(0.0), h.energy.GetOr(0.0), 0.0)
  }

  ghost function RowsAsRegisters(s: seq<HourAgg>): seq<HourRegister> { Mapped(AsRegister(), s) }

  /** The same hours, each with its counter banked. */
  ghost function BankedRows(s: seq<HourAgg>): (b: seq<HourAgg>)
    requires AllCarry(s)
    ensures |b| == |s| && AllCarry(b)
  {
    if s == [] then []
    else BankedRows(s[..|s| - 1]) + [s[|s| - 1].(energy := Some(Banked(RowsAsRegisters(s))))]
  }

  lemma {:induction false} RegistersOfRows(s: seq<HourAgg>)
    requires AllCarry(s)
    ensures |RowsAsRegisters(s)| == |s| && PrevLast(RowsAsRegisters(s)) == PrevE(s)
    ensures s != [] ==> RowsAsRegisters(s)[..|s| - 1] == RowsAsRegisters(s[..|s| - 1])
    ensures s != [] ==> Banked(RowsAsRegisters(s)) == Banked(RowsAsRegisters(s[..|s| - 1])) + Pos(RiseOf(s))
  {
    if s != [] {
      var init := RowsAsRegisters(s[..|s| - 1]);
      assert RowsAsRegisters(s)[..|s| - 1] == init;
      RegistersOfRows(s[..|s| - 1]);
    }
  }

  lemma {:induction false} BankedRowAt(s: seq<HourAgg>, i: nat)
    requires AllCarry(s) && i < |s|
    ensures BankedRows(s)[i] == s[i].(energy := Some(Banked(RowsAsRegisters(s[..i + 1]))))
  {
    if i == |s| - 1 {
      assert s[..i + 1] == s;
    } else {
      BankedRowAt(s[..|s| - 1], i);
      assert s[..|s| - 1][..i + 1] == s[..i + 1];
    }
  }

  lemma {:induction false} CreditOfARise(rule: Rule, span: real, rise: real, avg: Option<real>)
    ensures Credit(rule, span, Pos(rise), avg) == Credit(rule, span, rise, avg)
    ensures Clips(rule, span, Pos(rise)) <==> Clips(rule, span, rise)
    ensures Clips(rule, span, rise) ==> Pos(rise) == rise
  {}

  ghost predicate SameHour(b: seq<HourAgg>, s: seq<HourAgg>, i: nat)
    requires AllCarry(b) && AllCarry(s) && i < |s| == |b|
  {
    b[i].start == s[i].start && b[i].powerAvg == s[i].powerAvg && RiseAt(b, i) == Pos(RiseAt(s, i))
  }

  lemma {:induction false} SameRisesSameEnergy(b: seq<HourAgg>, s: seq<HourAgg>, rule: Rule, dayStart: int)
    requires AllCarry(b) && AllCarry(s) && |b| == |s| && forall i | 0 <= i < |s| :: SameHour(b, s, i)
    ensures Energy(b, rule, dayStart) == Energy(s, rule, dayStart)
    ensures ClippedIn(b, rule, dayStart) == ClippedIn(s, rule, dayStart)
    decreases |s|
  {
    if s != [] {
      var n := |s| - 1;
      forall i | 0 <= i < n ensures SameHour(b[..n], s[..n], i) {
        assert SameHour(b, s, i);
      }
      SameRisesSameEnergy(b[..n], s[..n], rule, dayStart);
      assert SameHour(b, s, n);
      assert n > 0 ==> SameHour(b, s, n - 1);
      assert SpanOf(b, dayStart) == SpanOf(s, dayStart);
      assert RiseOf(b) == Pos(RiseOf(s));
      CreditOfARise(rule, SpanOf(s, dayStart), RiseOf(s), s[n].powerAvg);
    }
  }

  ghost function BankUpTo(s: seq<HourAgg>, n: nat): real
    requires AllCarry(s) && n <= |s|
  {
    Banked(RowsAsRegisters(s[..n]))
  }

  lemma {:induction false} BankRises(s: seq<HourAgg>, i: nat)
    requires AllCarry(s) && i < |s|
    ensures BankUpTo(s, i + 1) == BankUpTo(s, i) + Pos(RiseAt(s, i))
    ensures BankUpTo(s, 0) == 0.0
  {
    RegistersOfRows(s[..i + 1]);
    assert s[..i + 1][..i] == s[..i];
    assert RiseOf(s[..i + 1]) == RiseAt(s, i);
    assert s[..0] == [];
  }

  lemma {:induction false} BankedRowsSameHour(s: seq<HourAgg>, i: nat)
    requires AllCarry(s) && i < |s|
    ensures SameHour(BankedRows(s), s, i)
  {
    var b := BankedRows(s);
    BankedRowAt(s, i);
    BankRises(s, i);
    assert b[i].energy == Some(BankUpTo(s, i + 1));
    if i > 0 {
      BankedRowAt(s, i - 1);
      assert b[i - 1].energy == Some(BankUpTo(s, i));
    }
  }

  /** For rows that kept only their highest reading, banking changes neither the energy nor what is clipped. */
  lemma {:induction false} BankingKeepsOldRows(s: seq<HourAgg>, peak: Option<real>, dayStart: int)
    requires AllCarry(s)
    ensures Energy(BankedRows(s), RuleFor(peak), dayStart) == Energy(s, RuleFor(peak), dayStart)
    ensures ClippedIn(BankedRows(s), RuleFor(peak), dayStart) == ClippedIn(s, RuleFor(peak), dayStart)
  {
    forall i | 0 <= i < |s| { BankedRowsSameHour(s, i); }
    SameRisesSameEnergy(BankedRows(s), s, RuleFor(peak), dayStart);
  }

  /** What banking is given for a day of such rows. */
  ghost function OldRegisters(hours: seq<HourAgg>): seq<HourRegister> {
    if hours == [] then []
    else
      var r := RolledHourRegister(hours[0].start, RolledRow(hours[0].energy, None, None, None));
      (if r.Some? then [r.value] else []) + OldRegisters(hours[1..])
  }

  function Rebank(out: map<int, real>): HourAgg -> HourAgg {
    (h: HourAgg) => h.(energy := if h.start in out then Some(out[h.start]) else None)
  }

  /** The day's hours, each with what the map of banks holds for its start. */
  function Rebanked(hours: seq<HourAgg>, out: map<int, real>): seq<HourAgg> { Mapped(Rebank(out), hours) }

  ghost predicate StartsApart(hours: seq<HourAgg>) {
    forall i, j | 0 <= i < j < |hours| :: hours[i].start != hours[j].start
  }

  lemma {:induction false} OldRegistersAreMapped(hours: seq<HourAgg>)
    ensures OldRegisters(hours) == RowsAsRegisters(Filter(Carries, hours))
  {
    if hours != [] {
      OldRegistersAreMapped(hours[1..]);
      if Carries(hours[0]) { MappedFirst(AsRegister(), hours[0], Filter(Carries, hours[1..])); }
    }
  }

  lemma {:induction false} OldRegistersSorted(hours: seq<HourAgg>)
    ensures Sort(RegisterLe, OldRegisters(hours)) == RowsAsRegisters(Counted(hours))
  {
    OldRegistersAreMapped(hours);
    SortMapped(AsRegister(), AggLe, RegisterLe, Filter(Carries, hours));
  }

  lemma {:induction false} SameStartSameHour(hours: seq<HourAgg>, a: HourAgg, b: HourAgg)
    requires StartsApart(hours) && a in hours && b in hours && a.start == b.start
    ensures a == b
  {}

  lemma {:induction false} CountedApart(hours: seq<HourAgg>)
    requires StartsApart(hours)
    ensures StartsApart(Counted(hours))
  {
    assert NoRepeats(hours);
    FilterNoRepeats(Carries, hours);
    SortNoRepeats(AggLe, Filter(Carries, hours));
    CountedCarry(hours);
    var s := Counted(hours);
    forall i, j | 0 <= i < j < |s| ensures s[i].start != s[j].start {
      assert s[i] in s && s[j] in s;
      if s[i].start == s[j].start { SameStartSameHour(hours, s[i], s[j]); }
    }
  }

  /** The map of banks holds for each counted hour the bank at its end. */
  lemma {:induction false} BanksOfOldRows(s: seq<HourAgg>, out: map<int, real>, i: nat)
    requires AllCarry(s) && StartsApart(s) && BanksOf(RowsAsRegisters(s), out) && i < |s|
    ensures s[i].start in out && out[s[i].start] == BankUpTo(s, i + 1)
  {
    var cut := RowsAsRegisters(s);
    assert LastOfItsStart(cut, i);
    assert cut[..i + 1] == RowsAsRegisters(s[..i + 1]);
    assert cut[i].start == s[i].start;
  }

  /** And nothing for an hour without a counter. */
  lemma {:induction false} OnlyCountedAreBanked(hours: seq<HourAgg>, out: map<int, real>, h: HourAgg)
    requires StartsApart(hours) && BanksOf(RowsAsRegisters(Counted(hours)), out) && h in hours
    ensures h.start in out <==> h.energy.Some?
  {
    CountedCarry(hours);
    CountedApart(hours);
    var s := Counted(hours);
    if h.energy.Some? {
      assert h in s;
      var i :| 0 <= i < |s| && s[i] == h;
      BanksOfOldRows(s, out, i);
    } else if h.start in out {
      var j :| 0 <= j < |s| && RowsAsRegisters(s)[j].start == h.start;
      assert s[j] in s;
      SameStartSameHour(hours, s[j], h);
    }
  }

  lemma {:induction false} RebankedCounted(hours: seq<HourAgg>, out: map<int, real>)
    requires StartsApart(hours) && BanksOf(Sort(RegisterLe, OldRegisters(hours)), out)
    ensures AllCarry(Counted(hours)) && Counted(Rebanked(hours, out)) == BankedRows(Counted(hours))
  {
    OldRegistersSorted(hours);
    CountedCarry(hours);
    CountedApart(hours);
    forall h | h in hours { OnlyCountedAreBanked(hours, out, h); }
    FilterMapped(Rebank(out), Carries, Carries, hours);
    SortMapped(Rebank(out), AggLe, AggLe, Filter(Carries, hours));
    RebankedRows(Counted(hours), out);
  }

  lemma {:induction false} RebankedRows(s: seq<HourAgg>, out: map<int, real>)
    requires AllCarry(s) && StartsApart(s) && BanksOf(RowsAsRegisters(s), out)
    ensures Rebanked(s, out) == BankedRows(s)
  {
    forall i | 0 <= i < |s| ensures Rebanked(s, out)[i] == BankedRows(s)[i] {
      BanksOfOldRows(s, out, i);
      BankedRowAt(s, i);
    }
  }

  lemma {:induction false} RebankedPeak(hours: seq<HourAgg>, out: map<int, real>)
    ensures DayPeak(Rebanked(hours, out)) == DayPeak(hours)
  {
    if hours != [] {
      assert Rebanked(hours, out)[1..] == Rebanked(hours[1..], out);
      RebankedPeak(hours[1..], out);
    }
  }

  lemma {:induction false} HealthyBank(s: seq<HourAgg>, i: nat)
    requires IsBanked(s) && i < |s|
    ensures BankUpTo(s, i + 1) == s[i].energy.value
  {
    BankRises(s, i);
    if i > 0 { HealthyBank(s, i - 1); }
  }

  /** A counter that never fell is its own bank. */
  lemma {:induction false} HealthyRowsStand(s: seq<HourAgg>)
    requires IsBanked(s)
    ensures BankedRows(s) == s
  {
    forall i | 0 <= i < |s| ensures BankedRows(s)[i] == s[i] {
      BankedRowAt(s, i);
      HealthyBank(s, i);
    }
  }

  lemma {:induction false} SameHoursSameDay(a: seq<HourAgg>, b: seq<HourAgg>, dayStart: int)
    requires Counted(a) == Counted(b) && DayPeak(a) == DayPeak(b)
    ensures Bounded(a, dayStart) == Bounded(b, dayStart)
  {}

  lemma {:induction false} EnergyAndClippedOf(hours: seq<HourAgg>, s: seq<HourAgg>, peak: Option<real>, dayStart: int)
    requires AllCarry(s) && s == Counted(hours) && peak == DayPeak(hours)
    ensures Bounded(hours, dayStart).energy == if s == [] then None else Some(Energy(s, RuleFor(peak), dayStart))
    ensures Bounded(hours, dayStart).clipped == ClippedIn(s, RuleFor(peak), dayStart)
  {}

  /**
   For any day of rows that kept only their highest reading, one to an hour, banking them and bounding the banks
   gives the energy and the clipped hours that bounding the rows gave, falls and all; and where the counter never
   fell, the very same day.
   */
  lemma {:induction false} BankingKeepsOldDays(hours: seq<HourAgg>, out: map<int, real>, dayStart: int)
    requires StartsApart(hours) && BanksOf(Sort(RegisterLe, OldRegisters(hours)), out)
    ensures var banked, kept := Bounded(Rebanked(hours, out), dayStart), Bounded(hours, dayStart);
            && banked.energy == kept.energy && banked.clipped == kept.clipped
            && (IsBanked(Counted(hours)) ==> banked == kept)
  {
    var s, peak := Counted(hours), DayPeak(hours);
    RebankedCounted(hours, out);
    RebankedPeak(hours, out);
    BankingKeepsOldRows(s, peak, dayStart);
    EnergyAndClippedOf(hours, s, peak, dayStart);
    EnergyAndClippedOf(Rebanked(hours, out), BankedRows(s), peak, dayStart);
    if IsBanked(s) {
      HealthyRowsStand(s);
      SameHoursSameDay(Rebanked(hours, out), hours, dayStart);
    }
  }
}
