/**
 A projected period built from recorded days (`src/lib/baselineProjection.ts`). A date is its number of
 days from the fixed Sunday the turns are counted from, before it as well as after.
 */
module BaselineProjection {
  import opened Wrappers

  type Week = w: seq<string> | |w| == 7 witness ["", "", "", "", "", "", ""]

  /** The kind of day a date is, holidays aside. The fixed day is a Sunday, and so is `week[0]`. */
  function KindOf(week: Week, n: int): string { week[n % 7] }

  // ---------------------------------------------------------------- turns

  /** How many of the dates from `a` up to `b` are of the kind. */
  ghost function CountIn(week: Week, kind: string, a: int, b: int): nat
    decreases b - a
  {
    if b <= a then 0 else CountIn(week, kind, a, b - 1) + (if KindOf(week, b - 1) == kind then 1 else 0)
  }

  /** A date's turn in its kind: dates of the kind since the fixed day, negative before it. */
  ghost function Turn(week: Week, kind: string, n: int): int {
    if n >= 0 then CountIn(week, kind, 0, n) else 0 - CountIn(week, kind, n, 0)
  }

  function PerWeek(week: seq<string>, kind: string): nat {
    if week == [] then 0 else (if week[0] == kind then 1 else 0) + PerWeek(week[1..], kind)
  }

  lemma {:induction false} CountSplit(week: Week, kind: string, a: int, m: int, b: int)
    requires a <= m <= b
    ensures CountIn(week, kind, a, b) == CountIn(week, kind, a, m) + CountIn(week, kind, m, b)
    decreases b - m
  {
    if m < b { CountSplit(week, kind, a, m, b - 1); }
  }

  lemma {:induction false} CountShift(week: Week, kind: string, a: int, b: int)
    requires a <= b
    ensures CountIn(week, kind, a + 7, b + 7) == CountIn(week, kind, a, b)
    decreases b - a
  {
    if a < b {
      CountShift(week, kind, a, b - 1);
      assert (b - 1 + 7) % 7 == (b - 1) % 7;
    }
  }

  lemma {:induction false} CountRestOfWeek(week: Week, kind: string, k: nat)
    requires k <= 7
    ensures CountIn(week, kind, k, 7) == PerWeek(week[k..], kind)
    decreases 7 - k
  {
    if k < 7 {
      CountRestOfWeek(week, kind, k + 1);
      CountSplit(week, kind, k, k + 1, 7);
      assert CountIn(week, kind, k, k) == 0;
      assert week[k..][1..] == week[k + 1..];
    }
  }

  /** From the start of week `j`, the count is that from the fixed day. */
  lemma {:induction false} FromAWeekStart(week: Week, kind: string, j: int, r: nat)
    ensures CountIn(week, kind, 7 * j, 7 * j + r) == CountIn(week, kind, 0, r)
    decreases if j < 0 then -j else j
  {
    if j > 0 {
      CountShift(week, kind, 7 * (j - 1), 7 * (j - 1) + r);
      FromAWeekStart(week, kind, j - 1, r);
    } else if j < 0 {
      CountShift(week, kind, 7 * j, 7 * j + r);
      FromAWeekStart(week, kind, j + 1, r);
    }
  }

  lemma {:induction false} CountWeeks(week: Week, kind: string, j: int, q: nat)
    ensures CountIn(week, kind, 7 * j, 7 * (j + q)) == q * PerWeek(week, kind)
    decreases q
  {
    if q > 0 {
      CountWeeks(week, kind, j + 1, q - 1);
      CountSplit(week, kind, 7 * j, 7 * j + 7, 7 * (j + q));
      FromAWeekStart(week, kind, j, 7);
      CountRestOfWeek(week, kind, 0);
      assert week[0..] == week;
      assert (q - 1) * PerWeek(week, kind) == q * PerWeek(week, kind) - PerWeek(week, kind);
    }
  }

  /** Whole weeks at a week's worth each, and what the last part-week adds, on either side of the fixed day. */
  lemma {:induction false} TurnByWeeks(week: Week, kind: string, n: int)
    ensures Turn(week, kind, n) == (n / 7) * PerWeek(week, kind) + CountIn(week, kind, 0, n % 7)
  {
    if n >= 0 { TurnAhead(week, kind, n / 7, n % 7); } else { TurnBehind(week, kind, n / 7, n % 7); }
  }

  lemma {:induction false} TurnAhead(week: Week, kind: string, q: nat, r: nat)
    ensures CountIn(week, kind, 0, 7 * q + r) == q * PerWeek(week, kind) + CountIn(week, kind, 0, r)
  {
    FromAWeekStart(week, kind, q, r);
    CountWeeks(week, kind, 0, q);
    CountSplit(week, kind, 0, 7 * q, 7 * q + r);
  }

  lemma {:induction false} TurnBehind(week: Week, kind: string, q: int, r: nat)
    requires 7 * q + r <= 0
    ensures 0 - CountIn(week, kind, 7 * q + r, 0) == q * PerWeek(week, kind) + CountIn(week, kind, 0, r)
  {
    FromAWeekStart(week, kind, q, r);
    CountWeeks(week, kind, q, -q);
    CountSplit(week, kind, 7 * q, 7 * q + r, 0);
    Negate(q, PerWeek(week, kind));
  }

  lemma {:induction false} Negate(q: int, p: int)
    ensures (-q) * p == -(q * p)
  {}

  method TurnOf(week: Week, kind: string, n: int) returns (before: int)
    ensures before == Turn(week, kind, n)
  {
    var weeks := n / 7;
    var rest := n - weeks * 7;
    before := weeks * PerWeek(week, kind);
    for k := 0 to rest
      invariant before == weeks * PerWeek(week, kind) + CountIn(week, kind, 0, k)
    {
      if week[k % 7] == kind { before := before + 1; }
    }
    TurnByWeeks(week, kind, n);
  }

  /** From one date to the next the turn rises by one exactly on dates of the kind, past and future alike. */
  lemma {:induction false} TurnRises(week: Week, kind: string, n: int)
    ensures Turn(week, kind, n + 1) - Turn(week, kind, n) == if KindOf(week, n) == kind then 1 else 0
  {
    if n < 0 {
      CountSplit(week, kind, n, n + 1, 0);
      assert CountIn(week, kind, n, n) == 0;
    }
  }

  // ---------------------------------------------------------------- the round robin

  /** How often, among the dates of the kind from `a` up to `b`, the turn falls on place `r` of `p`. */
  ghost function Uses(week: Week, kind: string, p: int, r: int, a: int, b: int): nat
    requires p > 0
    decreases b - a
  {
    if b <= a then 0
    else
      Uses(week, kind, p, r, a, b - 1)
      + (if KindOf(week, b - 1) == kind && Turn(week, kind, b - 1) % p == r then 1 else 0)
  }

  /** Multiples of `p` passed, counted so that the `r`-th place of each round is passed once. */
  ghost function Passed(t: int, p: int, r: int): int
    requires p > 0
  {
    (t + (p - 1 - r)) / p
  }

  lemma {:induction false} DivideBy(x: int, p: int, q: int)
    requires p > 0 && p * q <= x < p * q + p
    ensures x / p == q
  {
    var d := x / p - q;
    assert p * (x / p) <= x < p * (x / p) + p;
    assert p * d == p * (x / p) - p * q;
    WithinOne(p, d);
  }

  lemma {:induction false} WithinOne(p: int, d: int)
    requires p > 0 && -p < p * d < p
    ensures d == 0
  {}

  lemma {:induction false} PassedRises(t: int, p: int, r: int)
    requires p > 0 && 0 <= r < p
    ensures Passed(t + 1, p, r) - Passed(t, p, r) == if t % p == r then 1 else 0
  {
    var q, m := t / p, t % p;
    assert t == p * q + m;
    assert p * (q + 1) == p * q + p;
    if m <= r {
      DivideBy(t + (p - 1 - r), p, q);
    } else {
      DivideBy(t + (p - 1 - r), p, q + 1);
    }
    if m < r {
      DivideBy(t + 1 + (p - 1 - r), p, q);
    } else {
      DivideBy(t + 1 + (p - 1 - r), p, q + 1);
    }
  }

  lemma {:induction false} UsesArePasses(week: Week, kind: string, p: int, r: int, a: int, b: int)
    requires p > 0 && 0 <= r < p && a <= b
    ensures Uses(week, kind, p, r, a, b) == Passed(Turn(week, kind, b), p, r) - Passed(Turn(week, kind, a), p, r)
    ensures Turn(week, kind, b) == Turn(week, kind, a) + CountIn(week, kind, a, b)
    decreases b - a
  {
    if a < b {
      UsesArePasses(week, kind, p, r, a, b - 1);
      TurnRises(week, kind, b - 1);
      if KindOf(week, b - 1) == kind { PassedRises(Turn(week, kind, b - 1), p, r); }
    }
  }

  lemma {:induction false} DivideSum(x: int, k: nat, p: int)
    requires p > 0
    ensures (x + k) / p == x / p + k / p + (if x % p + k % p < p then 0 else 1)
  {
    var qx, mx, qk, mk := x / p, x % p, k / p, k % p;
    assert x == p * qx + mx && k == p * qk + mk;
    assert p * (qx + qk) == p * qx + p * qk && p * (qx + qk + 1) == p * qx + p * qk + p;
    DivideBy(x + k, p, qx + qk + if mx + mk < p then 0 else 1);
  }

  lemma {:induction false} RoundUp(k: nat, p: int)
    requires p > 0
    ensures (k + p - 1) / p == k / p + (if k % p == 0 then 0 else 1)
  {
    var qk, mk := k / p, k % p;
    assert k == p * qk + mk;
    assert p * (qk + 1) == p * qk + p;
    DivideBy(k + p - 1, p, qk + if mk == 0 then 0 else 1);
  }

  lemma {:induction false} PassesInARow(t: int, k: nat, p: int, r: int)
    requires p > 0 && 0 <= r < p
    ensures k / p <= Passed(t + k, p, r) - Passed(t, p, r) <= (k + p - 1) / p
  {
    DivideSum(t + (p - 1 - r), k, p);
    RoundUp(k, p);
  }

  /** Over any run of dates, wherever it lies, the kind's `p` recorded days are used as evenly as can be. */
  lemma {:induction false} DonorsAreUsedEvenly(week: Week, kind: string, p: int, r: int, a: int, b: int)
    requires p > 0 && 0 <= r < p && a <= b
    ensures var k := CountIn(week, kind, a, b);
            k / p <= Uses(week, kind, p, r, a, b) <= (k + p - 1) / p
  {
    UsesArePasses(week, kind, p, r, a, b);
    PassesInARow(Turn(week, kind, a), CountIn(week, kind, a, b), p, r);
  }

  // ---------------------------------------------------------------- which recorded day a date gets

  datatype Meter = Meter(w: seq<real>, max: seq<real>)
  datatype DonorDay = DonorDay(date: int, meters: map<string, Meter>, maxW: seq<real>)
  datatype Holiday = Holiday(date: int, name: string)
  datatype Projected = Projected(date: int, kind: string, donor: DonorDay, holiday: Option<string>)

  /** The week, the modelled kinds in order with the energy each uses, and each kind's recorded days. */
  datatype Baseline = Baseline(week: Week, kinds: seq<string>, totals: map<string, real>,
    pools: map<string, seq<DonorDay>>)

  /** Every kind named is modelled, and has a recorded day. */
  ghost predicate Complete(b: Baseline) {
    && (forall k | 0 <= k < 7 :: b.week[k] in b.totals)
    && (forall i | 0 <= i < |b.kinds| :: b.kinds[i] in b.totals)
    && (forall t | t in b.totals :: t in b.pools && b.pools[t] != [])
  }

  /** The kind that uses least, found entry by entry starting from `start`. */
  function ClosedFrom(kinds: seq<string>, totals: map<string, real>, start: string): (kind: string)
    requires start in totals && forall i | 0 <= i < |kinds| :: kinds[i] in totals
    ensures kind in totals && totals[kind] <= totals[start]
    ensures forall i | 0 <= i < |kinds| :: totals[kind] <= totals[kinds[i]]
    ensures kind == start || kind in kinds
    ensures totals[start] == totals[kind] ==> kind == start
    ensures kind != start ==>
      exists i | 0 <= i < |kinds| :: kinds[i] == kind && forall j | 0 <= j < i :: totals[kinds[j]] > totals[kind]
  {
    if kinds == [] then start
    else
      var n := |kinds| - 1;
      var least := ClosedFrom(kinds[..n], totals, start);
      assert forall i | 0 <= i < n :: kinds[..n][i] == kinds[i];
      if totals[kinds[n]] < totals[least] then kinds[n] else least
  }

  /** The kind of day a holiday is expected to be: whichever uses least. */
  function ClosedKind(b: Baseline): (kind: string)
    requires Complete(b)
    ensures kind in b.totals && b.totals[kind] <= b.totals[b.week[0]]
    ensures forall i | 0 <= i < |b.kinds| :: b.totals[kind] <= b.totals[b.kinds[i]]
    ensures b.totals[b.week[0]] == b.totals[kind] ==> kind == b.week[0]
    ensures kind != b.week[0] ==>
      exists i | 0 <= i < |b.kinds| ::
        b.kinds[i] == kind && forall j | 0 <= j < i :: b.totals[b.kinds[j]] > b.totals[kind]
  {
    ClosedFrom(b.kinds, b.totals, b.week[0])
  }

  function FindHoliday(holidays: seq<Holiday>, n: int): (r: Option<string>)
    ensures r.Some? <==> exists h :: h in holidays && h.date == n
    ensures r.Some? ==>
      exists i | 0 <= i < |holidays| ::
        holidays[i] == Holiday(n, r.value) && forall j | 0 <= j < i :: holidays[j].date != n
  {
    if holidays == [] then None
    else if holidays[0].date == n then Some(holidays[0].name)
    else
      var r := FindHoliday(holidays[1..], n);
      assert forall i | 0 <= i < |holidays[1..]| && holidays[1..][i].date == n :: holidays[i + 1].date == n;
      r
  }

  method DonorFor(b: Baseline, n: int, holidays: seq<Holiday>) returns (day: Projected)
    requires Complete(b)
    ensures day == DonorOf(b, n, holidays)
  {
    var holiday := FindHoliday(holidays, n);
    var ordinary := b.week[n % 7];
    var closed := ClosedKind(b);
    if holiday.Some? && ordinary != closed {
      var pool := b.pools[closed];
      return Projected(n, closed, pool[n % |pool|], holiday);
    }
    var pool := b.pools[ordinary];
    var turn := TurnOf(b.week, ordinary, n);
    day := Projected(n, ordinary, pool[turn % |pool|], None);
  }

  ghost function DonorOf(b: Baseline, n: int, holidays: seq<Holiday>): Projected
    requires Complete(b)
  {
    var holiday, ordinary, closed := FindHoliday(holidays, n), KindOf(b.week, n), ClosedKind(b);
    if holiday.Some? && ordinary != closed
    then Projected(n, closed, b.pools[closed][n % |b.pools[closed]|], holiday)
    else Projected(n, ordinary, b.pools[ordinary][Turn(b.week, ordinary, n) % |b.pools[ordinary]|], None)
  }

  /** Dates of the kind on which recorded day number `r` was drawn. */
  ghost function Draws(b: Baseline, kind: string, r: int, a: int, until: int, holidays: seq<Holiday>): nat
    requires Complete(b) && kind in b.pools && 0 <= r < |b.pools[kind]|
    decreases until - a
  {
    if until <= a then 0
    else Draws(b, kind, r, a, until - 1, holidays)
         + (if DonorOf(b, until - 1, holidays).kind == kind
           && DonorOf(b, until - 1, holidays).donor == b.pools[kind][r] then 1 else 0)
  }

  ghost predicate DistinctDays(pool: seq<DonorDay>) {
    forall i, j | 0 <= i < j < |pool| :: pool[i] != pool[j]
  }

  lemma {:induction false} DrawsAreUses(b: Baseline, kind: string, r: int, a: int, until: int, holidays: seq<Holiday>)
    requires Complete(b) && kind in b.totals && DistinctDays(b.pools[kind]) && 0 <= r < |b.pools[kind]| && a <= until
    requires forall h | h in holidays :: !(a <= h.date < until)
    ensures Draws(b, kind, r, a, until, holidays) == Uses(b.week, kind, |b.pools[kind]|, r, a, until)
    decreases until - a
  {
    if a < until {
      DrawsAreUses(b, kind, r, a, until - 1, holidays);
      assert FindHoliday(holidays, until - 1).None?;
    }
  }

  /** Without holidays in it, a run of dates draws each of a kind's recorded days as evenly as can be, in any period. */
  lemma {:induction false} RecordedDaysAreDrawnEvenly(b: Baseline, kind: string, r: int, a: int, until: int,
        holidays: seq<Holiday>)
    requires Complete(b) && kind in b.totals && DistinctDays(b.pools[kind]) && 0 <= r < |b.pools[kind]| && a <= until
    requires forall h | h in holidays :: !(a <= h.date < until)
    ensures var k, p := CountIn(b.week, kind, a, until), |b.pools[kind]|;
            k / p <= Draws(b, kind, r, a, until, holidays) <= (k + p - 1) / p
  {
    DrawsAreUses(b, kind, r, a, until, holidays);
    DonorsAreUsedEvenly(b.week, kind, |b.pools[kind]|, r, a, until);
  }

  /** A holiday is drawn from the kind that uses least, and only such a day can be drawn out of its turn. */
  lemma {:induction false} HolidaysAreTheQuietestDays(b: Baseline, n: int, holidays: seq<Holiday>)
    requires Complete(b)
    ensures var day := DonorOf(b, n, holidays);
            && day.donor in b.pools[day.kind]
            && (day.holiday.Some? ==> forall i | 0 <= i < |b.kinds| :: b.totals[day.kind] <= b.totals[b.kinds[i]])
            && (day != DonorOf(b, n, []) ==>
               (exists h :: h in holidays && h.date == n) && KindOf(b.week, n) != day.kind)
  {}

  /** `donor` is the pool's day at place `at`, counted round and round from its first, forward and back. */
  ghost predicate DrawnAt(pool: seq<DonorDay>, at: int, donor: DonorDay) {
    exists r | 0 <= r < |pool| :: pool[r] == donor && (at - r) % |pool| == 0
  }

  lemma {:induction false} RoundAndRound(pool: seq<DonorDay>, at: int)
    requires pool != []
    ensures DrawnAt(pool, at, pool[at % |pool|])
  {
    WholeRounds(at, |pool|);
    assert pool[at % |pool|] in pool;
  }

  lemma {:induction false} WholeRounds(at: int, p: int)
    requires p > 0
    ensures (at - at % p) % p == 0
  {
    var q, x := at / p, at - at % p;
    assert x == p * q;
    DivideBy(x, p, q);
    assert x == p * (x / p) + x % p;
  }

  /** The kind of a holiday: of those that use least, the Sunday's if it is one, and else the first listed. */
  ghost predicate IsClosedKind(b: Baseline, kind: string)
    requires Complete(b)
  {
    && kind in b.totals && (forall i | 0 <= i < |b.kinds| :: b.totals[kind] <= b.totals[b.kinds[i]])
    && b.totals[kind] <= b.totals[b.week[0]]
    && (kind == b.week[0]
        || (b.totals[kind] < b.totals[b.week[0]]
            && exists i | 0 <= i < |b.kinds| ::
                 b.kinds[i] == kind && forall j | 0 <= j < i :: b.totals[b.kinds[j]] > b.totals[kind]))
  }

  /**
   Every date is drawn so: a listed holiday whose weekday is of another kind is of the closed kind, under its listed
   name, and takes that kind's recorded days one a date; any other date is of its weekday's kind, and takes them one
   a date of the kind.
   */
  lemma {:induction false} EveryDateIsDrawn(b: Baseline, n: int, holidays: seq<Holiday>) returns (closed: string)
    requires Complete(b)
    ensures IsClosedKind(b, closed)
    ensures var day, ordinary := DonorOf(b, n, holidays), b.week[n % 7];
            && day.date == n
            && if (exists h :: h in holidays && h.date == n) && ordinary != closed
               then
                 && day.kind == closed && DrawnAt(b.pools[closed], n, day.donor)
                 && exists i | 0 <= i < |holidays| ::
                      && day.holiday == Some(holidays[i].name) && holidays[i].date == n
                      && forall j | 0 <= j < i :: holidays[j].date != n
               else
                 && day.kind == ordinary && day.holiday.None?
                 && DrawnAt(b.pools[ordinary], Turn(b.week, ordinary, n), day.donor)
  {
    closed := ClosedKind(b);
    var ordinary := b.week[n % 7];
    RoundAndRound(b.pools[closed], n);
    RoundAndRound(b.pools[ordinary], Turn(b.week, ordinary, n));
  }

  // ---------------------------------------------------------------- everything adds up

  function Sum(xs: seq<real>): real {
    if xs == [] then 0.0 else Sum(xs[..|xs| - 1]) + xs[|xs| - 1]
  }

  /** What a meter of a recorded day drew over its hours, in Wh; nothing when the day has no such meter. */
  function MeterWh(d: DonorDay, meter: string): real {
    if meter in d.meters then Sum(d.meters[meter].w) else 0.0
  }

  /** A meter's average power in an hour, with a missing hour or meter as nothing. */
  function MeterW(d: DonorDay, meter: string, h: nat): real {
    if meter in d.meters && h < |d.meters[meter].w| then d.meters[meter].w[h] else 0.0
  }

  ghost function DayWh(d: DonorDay, meters: seq<string>): real {
    if meters == [] then 0.0 else DayWh(d, meters[..|meters| - 1]) + MeterWh(d, meters[|meters| - 1])
  }

  /** The building's power in an hour. */
  ghost function BuildingW(d: DonorDay, meters: seq<string>, h: nat): real {
    if meters == [] then 0.0 else BuildingW(d, meters[..|meters| - 1], h) + MeterW(d, meters[|meters| - 1], h)
  }

  /** The building's energy over its days, each day's added up first and scaled to kWh. */
  ghost function BuildingKwh(days: seq<DonorDay>, meters: seq<string>): real {
    if days == [] then 0.0 else BuildingKwh(days[..|days| - 1], meters) + DayWh(days[|days| - 1], meters) / 1000.0
  }

  /** One circuit's energy over the days, each day's scaled first. */
  ghost function CircuitKwh(days: seq<DonorDay>, meter: string): real {
    if days == [] then 0.0 else CircuitKwh(days[..|days| - 1], meter) + MeterWh(days[|days| - 1], meter) / 1000.0
  }

  ghost function CircuitsKwh(days: seq<DonorDay>, meters: seq<string>): real {
    if meters == [] then 0.0 else CircuitsKwh(days, meters[..|meters| - 1]) + CircuitKwh(days, meters[|meters| - 1])
  }

  lemma {:induction false} OneMoreDay(days: seq<DonorDay>, meters: seq<string>)
    requires days != []
    ensures CircuitsKwh(days, meters) ==
      CircuitsKwh(days[..|days| - 1], meters) + DayWh(days[|days| - 1], meters) / 1000.0
  {
    if meters != [] { OneMoreDay(days, meters[..|meters| - 1]); }
  }

  lemma {:induction false} NoDays(meters: seq<string>)
    ensures CircuitsKwh([], meters) == 0.0
  {
    if meters != [] { NoDays(meters[..|meters| - 1]); }
  }

  /** The building's energy over a period is its circuits' energies added up. */
  lemma {:induction false} CircuitsAddUpToTheBuilding(days: seq<DonorDay>, meters: seq<string>)
    ensures BuildingKwh(days, meters) == CircuitsKwh(days, meters)
  {
    if days == [] {
      NoDays(meters);
    } else {
      CircuitsAddUpToTheBuilding(days[..|days| - 1], meters);
      OneMoreDay(days, meters);
    }
  }

  /** The building's hourly powers up to hour `n`, one hour each. */
  ghost function HoursWh(d: DonorDay, meters: seq<string>, n: nat): real {
    if n == 0 then 0.0 else HoursWh(d, meters, n - 1) + BuildingW(d, meters, n - 1)
  }

  ghost function MeterHoursWh(d: DonorDay, meter: string, n: nat): real {
    if n == 0 then 0.0 else MeterHoursWh(d, meter, n - 1) + MeterW(d, meter, n - 1)
  }

  lemma {:induction false} OneMoreMeter(d: DonorDay, meters: seq<string>, n: nat)
    requires meters != []
    ensures HoursWh(d, meters, n) == HoursWh(d, meters[..|meters| - 1], n) + MeterHoursWh(d, meters[|meters| - 1], n)
  {
    if n > 0 { OneMoreMeter(d, meters, n - 1); }
  }

  lemma {:induction false} NoMeters(d: DonorDay, n: nat)
    ensures HoursWh(d, [], n) == 0.0
  {
    if n > 0 { NoMeters(d, n - 1); }
  }

  lemma {:induction false} MeterHoursAre(d: DonorDay, meter: string, n: nat)
    requires meter in d.meters ==> n <= |d.meters[meter].w|
    ensures MeterHoursWh(d, meter, n) == if meter in d.meters then Sum(d.meters[meter].w[..n]) else 0.0
  {
    if n > 0 {
      MeterHoursAre(d, meter, n - 1);
      if meter in d.meters { assert d.meters[meter].w[..n][..n - 1] == d.meters[meter].w[..n - 1]; }
    }
  }

  /** The 24 hours of a day add up to the day, for days recorded with 24 hours for each meter. */
  lemma {:induction false} HoursAddUpToTheDay(d: DonorDay, meters: seq<string>)
    requires forall m | m in d.meters :: |d.meters[m].w| == 24
    ensures HoursWh(d, meters, 24) == DayWh(d, meters)
  {
    if meters == [] {
      NoMeters(d, 24);
    } else {
      var last := meters[|meters| - 1];
      HoursAddUpToTheDay(d, meters[..|meters| - 1]);
      OneMoreMeter(d, meters, 24);
      MeterHoursAre(d, last, 24);
      if last in d.meters { assert d.meters[last].w[..24] == d.meters[last].w; }
    }
  }

  // ---------------------------------------------------------------- quantiles

  ghost predicate Ascending(xs: seq<real>) {
    forall i, j | 0 <= i <= j < |xs| :: xs[i] <= xs[j]
  }

  function CeilOf(x: real): int { if x.Floor as real == x then x.Floor else x.Floor + 1 }

  /** Part of the way from one value to another. */
  function Between(from: real, to: real, part: real): real { from + (to - from) * part }

  /** The value at fractional place `i`, on the line between its two neighbours. */
  function ValueAt(xs: seq<real>, i: real): real
    requires 0.0 <= i <= (|xs| - 1) as real
  {
    Between(xs[i.Floor], xs[CeilOf(i)], i - i.Floor as real)
  }

  /** The fractional place of quantile `q` in a list whose last place is `last`. */
  function PlaceOf(last: real, q: real): (i: real)
    requires 0.0 <= last && 0.0 <= q <= 1.0
    ensures 0.0 <= i <= last
  {
    last * q
  }

  function Quantile(xs: seq<real>, q: real): Option<real>
    requires 0.0 <= q <= 1.0
  {
    if xs == [] then None else Some(ValueAt(xs, PlaceOf((|xs| - 1) as real, q)))
  }

  lemma {:induction false} PlacesInOrder(last: real, q1: real, q2: real)
    requires 0.0 <= last && 0.0 <= q1 <= q2 <= 1.0
    ensures PlaceOf(last, q1) <= PlaceOf(last, q2)
  {}

  lemma {:induction false} BetweenRises(from: real, to: real, t1: real, t2: real)
    requires from <= to && 0.0 <= t1 <= t2 <= 1.0
    ensures from <= Between(from, to, t1) <= Between(from, to, t2) <= to
  {
    var d := to - from;
    assert 0.0 <= d * t1;
    assert 0.0 <= d * (t2 - t1);
    assert 0.0 <= d * (1.0 - t2);
  }

  lemma {:induction false} ValueMonotone(xs: seq<real>, i: real, j: real)
    requires Ascending(xs) && 0.0 <= i <= j <= (|xs| - 1) as real
    ensures ValueAt(xs, i) <= ValueAt(xs, j)
  {
    var lo, hi := i.Floor, j.Floor;
    if lo == hi && lo as real < i {
      BetweenRises(xs[lo], xs[lo + 1], i - lo as real, j - lo as real);
    } else {
      BetweenRises(xs[lo], xs[CeilOf(i)], i - lo as real, 1.0);
      BetweenRises(xs[hi], xs[CeilOf(j)], j - hi as real, 1.0);
      assert xs[CeilOf(i)] <= xs[hi];
    }
  }

  lemma {:induction false} ValueAtWhole(xs: seq<real>, k: nat)
    requires k < |xs|
    ensures ValueAt(xs, k as real) == xs[k]
  {}

  lemma {:induction false} ValuesAscend(xs: seq<real>, i: real, j: real)
    requires xs != [] && Ascending(xs) && 0.0 <= i <= j <= (|xs| - 1) as real
    ensures xs[0] <= ValueAt(xs, i) <= ValueAt(xs, j) <= xs[|xs| - 1]
  {
    ValueMonotone(xs, 0.0, i);
    ValueMonotone(xs, i, j);
    ValueMonotone(xs, j, (|xs| - 1) as real);
    ValueAtWhole(xs, 0);
    ValueAtWhole(xs, |xs| - 1);
  }

  /** A quantile never leaves the list's range and never falls as `q` rises. */
  lemma {:induction false} QuantilesAscend(xs: seq<real>, q1: real, q2: real)
    requires xs != [] && Ascending(xs) && 0.0 <= q1 <= q2 <= 1.0
    ensures xs[0] <= Quantile(xs, q1).value <= Quantile(xs, q2).value <= xs[|xs| - 1]
  {
    var last := (|xs| - 1) as real;
    PlacesInOrder(last, q1, q2);
    ValuesAscend(xs, PlaceOf(last, q1), PlaceOf(last, q2));
  }

  /** A quantile lies on the straight line between the two values its place falls between. */
  lemma {:induction false} QuantilesAreOnTheLine(xs: seq<real>, q: real, place: real, k: nat)
    requires 0.0 <= q <= 1.0 && place == (|xs| - 1) as real * q && k + 1 < |xs|
    requires k as real <= place <= (k + 1) as real
    ensures Quantile(xs, q) == Some(xs[k] * ((k + 1) as real - place) + xs[k + 1] * (place - k as real))
  {
    ValuesAreOnTheLine(xs, place, k);
  }

  lemma {:induction false} ValuesAreOnTheLine(xs: seq<real>, place: real, k: nat)
    requires k + 1 < |xs| && k as real <= place <= (k + 1) as real
    ensures ValueAt(xs, place) == xs[k] * ((k + 1) as real - place) + xs[k + 1] * (place - k as real)
  {
    if k as real < place < (k + 1) as real {
      OnTheLine(xs[k], xs[k + 1], place - k as real);
    } else {
      ValueAtWhole(xs, if place == k as real then k else k + 1);
    }
  }

  lemma {:induction false} OnTheLine(from: real, to: real, part: real)
    ensures Between(from, to, part) == from * (1.0 - part) + to * part
  {}

  /** At the ends it is the least and the most. */
  lemma {:induction false} QuantileEnds(xs: seq<real>)
    requires xs != []
    ensures Quantile(xs, 0.0) == Some(xs[0]) && Quantile(xs, 1.0) == Some(xs[|xs| - 1])
  {
    var last := (|xs| - 1) as real;
    assert PlaceOf(last, 0.0) == 0.0 && PlaceOf(last, 1.0) == last;
    ValueAtWhole(xs, 0);
    ValueAtWhole(xs, |xs| - 1);
  }

  /** The demand curve's points run from the highest hour down to the lowest. */
  lemma {:induction false} CurveDescends(xs: seq<real>, i: nat, j: nat)
    requires xs != [] && Ascending(xs) && i <= j <= 100
    ensures Quantile(xs, 1.0 - j as real / 100.0).value <= Quantile(xs, 1.0 - i as real / 100.0).value
  {
    QuantilesAscend(xs, 1.0 - j as real / 100.0, 1.0 - i as real / 100.0);
  }
}
