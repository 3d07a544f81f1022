/**
 Episodes out of abnormal readings (`src/lib/capabilityEpisodes.ts`).

 One pass over the readings of every device, interleaved, keeps the open episode of each. It is proved to
 give each device the episodes of that device's readings alone, and those are proved to be the maximal
 runs of readings that share a value and lie at most fifteen minutes apart.

 A timestamp is the instant it parses to, or `None`. `names` stands for the locale's order of device ids.
 */
module CapabilityEpisodes {
  import opened Wrappers
  import opened OrderedMap
  import opened Sorting

  const EPISODE_GAP_MS := 900_000

  datatype Kind = Fault | PowerWarn | NetDegraded

  datatype Value = Text(text: string) | Number(number: real)

  datatype Sample = Sample(device: string, at: Option<int>, value: Value, power: Option<real>, limit: Option<real>)

  datatype Episode = Episode(
    device: string,
    kind: Kind,
    value: Value,
    from: int,
    to: int,
    samples: nat,
    peak: Option<real>,
    limit: Option<real>)

  function At(s: Sample): int { s.at.GetOr(0) }

  function Parses(): Sample -> bool { (s: Sample) => s.at.Some? }

  function Earlier(): (Sample, Sample) -> bool { (a: Sample, b: Sample) => At(a) <= At(b) }

  function OfDevice(d: string): Sample -> bool { (s: Sample) => s.device == d }

  function EpisodeOf(d: string): Episode -> bool { (e: Episode) => e.device == d }

  function Listed(names: (string, string) -> bool): (Episode, Episode) -> bool {
    (a: Episode, b: Episode) => a.from < b.from || (a.from == b.from && names(a.device, b.device))
  }

  function Usable(samples: seq<Sample>): seq<Sample> {
    Sort(Earlier(), Filter(Parses(), samples))
  }

  // ---------------------------------------------------------------- the fold

  /** The open episode and the last instant seen of each device, and the episodes already closed. */
  datatype Fold = Fold(open: seq<Pair<Episode>>, lastSeen: map<string, int>, out: seq<Episode>)

  function Begun(s: Sample, kind: Kind): Episode {
    Episode(s.device, kind, s.value, At(s), At(s), 1, s.power, s.limit)
  }

  function Higher(peak: Option<real>, power: real): real {
    if peak.Some? && peak.value >= power then peak.value else power
  }

  function Extended(e: Episode, s: Sample): Episode {
    e.(to := At(s), samples := e.samples + 1,
    peak := if s.power.Some? then Some(Higher(e.peak, s.power.value)) else e.peak,
    limit := if s.limit.Some? then s.limit else e.limit)
  }

  predicate Continues(f: Fold, s: Sample) {
    var current := Get(f.open, s.device);
    var gap := At(s) - (if s.device in f.lastSeen then f.lastSeen[s.device] else At(s));
    current.Some? && current.value.value == s.value && gap <= EPISODE_GAP_MS
  }

  function Renewed(f: Fold, s: Sample, kind: Kind): Episode {
    if Continues(f, s) then Extended(Get(f.open, s.device).value, s) else Begun(s, kind)
  }

  function Step(f: Fold, s: Sample, kind: Kind): Fold {
    var current := Get(f.open, s.device);
    Fold(
      Put(f.open, Pair(s.device, Renewed(f, s, kind))),
      f.lastSeen[s.device := At(s)],
      if current.Some? && !Continues(f, s) then f.out + [current.value] else f.out)
  }

  function Folded(xs: seq<Sample>, kind: Kind): Fold {
    if xs == [] then Fold([], map[], []) else Step(Folded(xs[..|xs| - 1], kind), xs[|xs| - 1], kind)
  }

  function Values(m: seq<Pair<Episode>>): seq<Episode> {
    if m == [] then [] else Values(m[..|m| - 1]) + [m[|m| - 1].value]
  }

  function Closed(f: Fold): seq<Episode> { f.out + Values(f.open) }

  function Episodes(samples: seq<Sample>, kind: Kind, names: (string, string) -> bool): seq<Episode> {
    Sort(Listed(names), Closed(Folded(Usable(samples), kind)))
  }

  method FoldEpisodes(samples: seq<Sample>, kind: Kind, names: (string, string) -> bool) returns (r: seq<Episode>)
    ensures r == Episodes(samples, kind, names)
  {
    var out := FoldUsable(Usable(samples), kind);
    r := Sort(Listed(names), out);
  }

  method FoldUsable(usable: seq<Sample>, kind: Kind) returns (out: seq<Episode>)
    ensures out == Closed(Folded(usable, kind))
  {
    var open: seq<Pair<Episode>> := [];
    var lastSeen: map<string, int> := map[];
    out := [];
    for i := 0 to |usable|
      invariant Fold(open, lastSeen, out) == Folded(usable[..i], kind)
    {
      assert usable[..i + 1][..i] == usable[..i];
      var s := usable[i];
      var current := Get(open, s.device);
      var gap := At(s) - (if s.device in lastSeen then lastSeen[s.device] else At(s));
      ghost var f := Fold(open, lastSeen, out);
      assert Folded(usable[..i + 1], kind) == Step(f, s, kind);
      if current.Some? && current.value.value == s.value && gap <= EPISODE_GAP_MS {
        assert Continues(f, s);
        open := Put(open, Pair(s.device, Extended(current.value, s)));
      } else {
        assert !Continues(f, s);
        if current.Some? { out := out + [current.value]; }
        open := Put(open, Pair(s.device, Begun(s, kind)));
      }
      lastSeen := lastSeen[s.device := At(s)];
    }
    assert usable[..|usable|] == usable;
    ghost var closed := out;
    for i := 0 to |open|
      invariant out == closed + Values(open[..i])
    {
      assert open[..i + 1][..i] == open[..i];
      out := out + [open[i].value];
    }
    assert open[..|open|] == open;
  }

  // ---------------------------------------------------------------- what the fold keeps

  /** Each device has at most one open episode, filed under its own id. */
  ghost predicate Kept(f: Fold) {
    && DistinctKeys(f.open)
    && (forall i | 0 <= i < |f.open| :: f.open[i].value.device == f.open[i].key)
  }

  lemma {:induction false} RenewedKeepsDevice(f: Fold, s: Sample, kind: Kind)
    requires Kept(f)
    ensures Renewed(f, s, kind).device == s.device
  {
    var current := Find(f.open, s.device);
    assert current.Some? ==> f.open[current.value].key == s.device;
  }

  lemma {:induction false} FoldedKeeps(xs: seq<Sample>, kind: Kind)
    ensures Kept(Folded(xs, kind))
  {
    if xs != [] {
      var f, s := Folded(xs[..|xs| - 1], kind), xs[|xs| - 1];
      FoldedKeeps(xs[..|xs| - 1], kind);
      var p := Pair(s.device, Renewed(f, s, kind));
      RenewedKeepsDevice(f, s, kind);
      PutKeeps(f.open, p);
      FiledPut(f.open, p);
    }
  }

  lemma {:induction false} FiledPut(m: seq<Pair<Episode>>, p: Pair<Episode>)
    requires p.value.device == p.key && forall i | 0 <= i < |m| :: m[i].value.device == m[i].key
    ensures forall i | 0 <= i < |Put(m, p)| :: Put(m, p)[i].value.device == Put(m, p)[i].key
  {}

  // ---------------------------------------------------------------- one device at a time

  /** `g` is what `f` knows of device `d`. */
  ghost predicate Tracks(f: Fold, g: Fold, d: string) {
    && Filter(EpisodeOf(d), f.out) == g.out
    && Get(f.open, d) == Get(g.open, d)
    && (d in f.lastSeen <==> d in g.lastSeen)
    && (d in f.lastSeen ==> f.lastSeen[d] == g.lastSeen[d])
  }

  lemma {:induction false} OwnStepTracks(f: Fold, g: Fold, s: Sample, kind: Kind)
    requires Kept(f) && Kept(g) && Tracks(f, g, s.device)
    ensures Tracks(Step(f, s, kind), Step(g, s, kind), s.device)
  {
    var d := s.device;
    var current := Get(f.open, d);
    if current.Some? {
      FilterAppend(EpisodeOf(d), f.out, [current.value]);
      assert Filter(EpisodeOf(d), [current.value]) == [current.value];
      GetPut(f.open, Pair(d, Extended(current.value, s)), d);
      GetPut(g.open, Pair(d, Extended(current.value, s)), d);
    }
    GetPut(f.open, Pair(d, Begun(s, kind)), d);
    GetPut(g.open, Pair(d, Begun(s, kind)), d);
  }

  lemma {:induction false} OtherStepTracks(f: Fold, g: Fold, s: Sample, kind: Kind, d: string)
    requires Kept(f) && Tracks(f, g, d) && s.device != d
    ensures Tracks(Step(f, s, kind), g, d)
  {
    var current := Get(f.open, s.device);
    if current.Some? {
      FilterAppend(EpisodeOf(d), f.out, [current.value]);
      assert Filter(EpisodeOf(d), [current.value]) == [];
      assert Filter(EpisodeOf(d), f.out) + [] == Filter(EpisodeOf(d), f.out);
      GetPut(f.open, Pair(s.device, Extended(current.value, s)), d);
    }
    GetPut(f.open, Pair(s.device, Begun(s, kind)), d);
  }

  lemma {:induction false} FoldTracks(xs: seq<Sample>, kind: Kind, d: string)
    ensures Tracks(Folded(xs, kind), Folded(Filter(OfDevice(d), xs), kind), d)
  {
    if xs != [] {
      var front, s := xs[..|xs| - 1], xs[|xs| - 1];
      assert front + [s] == xs;
      FoldTracks(front, kind, d);
      FoldedKeeps(front, kind);
      var mine := Filter(OfDevice(d), front);
      FoldedKeeps(mine, kind);
      FilterAppend(OfDevice(d), front, [s]);
      if s.device == d {
        assert Filter(OfDevice(d), [s]) == [s];
        assert (mine + [s])[..|mine|] == mine;
        OwnStepTracks(Folded(front, kind), Folded(mine, kind), s, kind);
      } else {
        assert Filter(OfDevice(d), [s]) == [];
        assert mine + [] == mine;
        OtherStepTracks(Folded(front, kind), Folded(mine, kind), s, kind, d);
      }
    }
  }

  function One(e: Option<Episode>): seq<Episode> { if e.None? then [] else [e.value] }

  lemma {:induction false} FilterValues(m: seq<Pair<Episode>>, d: string)
    requires DistinctKeys(m) && forall i | 0 <= i < |m| :: m[i].value.device == m[i].key
    ensures Filter(EpisodeOf(d), Values(m)) == One(Get(m, d))
  {
    if m != [] {
      var front, e := m[..|m| - 1], m[|m| - 1];
      FilterValues(front, d);
      FilterAppend(EpisodeOf(d), Values(front), [e.value]);
      if e.key == d {
        assert Find(front, d).None? by {
          assert forall i | 0 <= i < |front| :: front[i].key == m[i].key && m[i].key != m[|m| - 1].key;
        }
        assert Filter(EpisodeOf(d), [e.value]) == [e.value];
      } else {
        assert Filter(EpisodeOf(d), [e.value]) == [];
        assert Get(m, d) == Get(front, d);
      }
    }
  }

  lemma {:induction false} ClosedOfDevice(xs: seq<Sample>, kind: Kind, d: string)
    ensures Filter(EpisodeOf(d), Closed(Folded(xs, kind))) == Closed(Folded(Filter(OfDevice(d), xs), kind))
  {
    var mine := Filter(OfDevice(d), xs);
    var f, g := Folded(xs, kind), Folded(mine, kind);
    FoldTracks(xs, kind, d);
    FoldedKeeps(xs, kind);
    FilterAppend(EpisodeOf(d), f.out, Values(f.open));
    FilterValues(f.open, d);
    FilterMembers(OfDevice(d), xs);
    OnlyOpen(mine, kind, d);
  }

  ghost predicate AtMostOne(m: seq<Pair<Episode>>, d: string) {
    |m| <= 1 && (m != [] ==> m[0].key == d)
  }

  lemma {:induction false} PutKeepsOne(m: seq<Pair<Episode>>, e: Pair<Episode>)
    requires AtMostOne(m, e.key)
    ensures AtMostOne(Put(m, e), e.key)
  {}

  lemma {:induction false} OneKey(xs: seq<Sample>, kind: Kind, d: string)
    requires forall x | x in xs :: x.device == d
    ensures AtMostOne(Folded(xs, kind).open, d)
  {
    if xs != [] {
      var front, s := xs[..|xs| - 1], xs[|xs| - 1];
      assert s in xs;
      OneKey(front, kind, d);
      var f := Folded(front, kind);
      PutKeepsOne(f.open, Pair(s.device, Renewed(f, s, kind)));
    }
  }

  lemma {:induction false} ValuesOfOne(m: seq<Pair<Episode>>, d: string)
    requires AtMostOne(m, d)
    ensures Values(m) == One(Get(m, d))
  {
    if m != [] {
      assert m == [m[0]];
      assert m[..0] == [];
    }
  }

  /** With one device there is nothing open but its episode. */
  lemma {:induction false} OnlyOpen(xs: seq<Sample>, kind: Kind, d: string)
    requires forall x | x in xs :: x.device == d
    ensures Values(Folded(xs, kind).open) == One(Get(Folded(xs, kind).open, d))
  {
    OneKey(xs, kind, d);
    ValuesOfOne(Folded(xs, kind).open, d);
  }

  lemma {:induction false} FiltersCommute<T(!new)>(p: T -> bool, q: T -> bool, s: seq<T>)
    ensures Filter(p, Filter(q, s)) == Filter(q, Filter(p, s))
  {
    if s != [] { FiltersCommute(p, q, s[1..]); }
  }

  lemma {:induction false} EarlierIsAPreorder()
    ensures TotalPreorder(Earlier())
  {}

  lemma {:induction false} ListedIsAPreorder(names: (string, string) -> bool)
    requires TotalPreorder(names)
    ensures TotalPreorder(Listed(names))
  {
    var le := Listed(names);
    forall a, b ensures le(a, b) || le(b, a) { assert names(a.device, b.device) || names(b.device, a.device); }
    forall a, b, c | le(a, b) && le(b, c) ensures le(a, c) {
      assert names(a.device, b.device) && names(b.device, c.device) ==> names(a.device, c.device);
    }
  }

  lemma {:induction false} UsableOfDevice(samples: seq<Sample>, d: string)
    ensures Filter(OfDevice(d), Usable(samples)) == Usable(Filter(OfDevice(d), samples))
  {
    EarlierIsAPreorder();
    FilterSort(Earlier(), OfDevice(d), Filter(Parses(), samples));
    FiltersCommute(OfDevice(d), Parses(), samples);
  }

  /** Interleaving changes nothing: a device's episodes are those of its readings alone, in the same order. */
  lemma {:induction false} DeviceByDevice(samples: seq<Sample>, kind: Kind, names: (string, string) -> bool, d: string)
    requires TotalPreorder(names)
    ensures Filter(EpisodeOf(d), Episodes(samples, kind, names)) == Episodes(Filter(OfDevice(d), samples), kind, names)
  {
    ListedIsAPreorder(names);
    FilterSort(Listed(names), EpisodeOf(d), Closed(Folded(Usable(samples), kind)));
    ClosedOfDevice(Usable(samples), kind, d);
    UsableOfDevice(samples, d);
  }

  // ---------------------------------------------------------------- the runs of one device

  ghost predicate Joined(a: Sample, b: Sample) {
    a.value == b.value && At(b) - At(a) <= EPISODE_GAP_MS
  }

  ghost function Concat(runs: seq<seq<Sample>>): seq<Sample> {
    if runs == [] then [] else Concat(runs[..|runs| - 1]) + runs[|runs| - 1]
  }

  ghost predicate IsRun(run: seq<Sample>) {
    run != [] && forall i, j | 0 <= i < j < |run| && j == i + 1 :: Joined(run[i], run[j])
  }

  ghost predicate Breaks(a: seq<Sample>, b: seq<Sample>) {
    a != [] && b != [] && !Joined(a[|a| - 1], b[0])
  }

  /** `runs` cuts `xs` into runs, none of which could have been longer. */
  ghost predicate AreTheRuns(runs: seq<seq<Sample>>, xs: seq<Sample>) {
    && Concat(runs) == xs
    && (forall i | 0 <= i < |runs| :: IsRun(runs[i]))
    && (forall i, j | 0 <= i < j < |runs| && j == i + 1 :: Breaks(runs[i], runs[j]))
  }

  ghost function Runs(xs: seq<Sample>): (runs: seq<seq<Sample>>) {
    if xs == [] then []
    else
      var runs, s := Runs(xs[..|xs| - 1]), xs[|xs| - 1];
      if runs != [] && |xs| > 1 && Joined(xs[|xs| - 2], s)
      then runs[..|runs| - 1] + [runs[|runs| - 1] + [s]]
      else runs + [[s]]
  }

  lemma {:induction false} ConcatEndsWith(runs: seq<seq<Sample>>)
    requires runs != [] && forall i | 0 <= i < |runs| :: runs[i] != []
    ensures Concat(runs) != []
    ensures Concat(runs)[|Concat(runs)| - 1] == runs[|runs| - 1][|runs[|runs| - 1]| - 1]
  {}

  lemma {:induction false} RunsOfMore(xs: seq<Sample>)
    requires |xs| > 1 && Runs(xs[..|xs| - 1]) != []
    ensures var before, s := Runs(xs[..|xs| - 1]), xs[|xs| - 1];
      Runs(xs) == if Joined(xs[|xs| - 2], s) then before[..|before| - 1] + [before[|before| - 1] + [s]]
        else before + [[s]]
  {}

  lemma {:induction false} FirstRun(s: Sample)
    ensures Runs([s]) == [[s]] && AreTheRuns(Runs([s]), [s])
  {
    assert [s][..0] == [] && [[s]][..0] == [];
    assert Runs([]) == [];
    assert IsRun([s]);
  }

  lemma {:induction false} RunsAreTheRuns(xs: seq<Sample>)
    ensures AreTheRuns(Runs(xs), xs)
    ensures xs != [] ==> Runs(xs) != []
  {
    if |xs| == 1 {
      assert xs == [xs[0]];
      FirstRun(xs[0]);
    } else if |xs| > 1 {
      RunsAreTheRuns(xs[..|xs| - 1]);
      RunsGoOn(xs[..|xs| - 1], xs[|xs| - 1], xs);
    }
  }

  lemma {:induction false} RunsGoOn(front: seq<Sample>, s: Sample, xs: seq<Sample>)
    requires front != [] && xs == front + [s] && Runs(front) != [] && AreTheRuns(Runs(front), front)
    ensures AreTheRuns(Runs(xs), xs) && Runs(xs) != []
  {
    assert xs[..|xs| - 1] == front;
    RunsOfMore(xs);
    if Joined(front[|front| - 1], s) {
      RunLonger(Runs(front), front, s);
    } else {
      RunAdded(Runs(front), front, s);
    }
  }

  lemma {:induction false} RunLonger(runs: seq<seq<Sample>>, front: seq<Sample>, s: Sample)
    requires runs != [] && front != [] && AreTheRuns(runs, front) && Joined(front[|front| - 1], s)
    ensures AreTheRuns(runs[..|runs| - 1] + [runs[|runs| - 1] + [s]], front + [s])
  {
    var n := |runs| - 1;
    assert forall i | 0 <= i < |runs| :: IsRun(runs[i]);
    ConcatEndsWith(runs);
    var last := runs[n] + [s];
    var all := runs[..n] + [last];
    assert all[..n] == runs[..n];
    assert Concat(all) == Concat(runs[..n]) + last;
    assert IsRun(last) by {
      assert IsRun(runs[n]);
      forall i | 0 < i < |last| ensures Joined(last[i - 1], last[i]) {
        assert i < |runs[n]| ==> Joined(runs[n][i - 1], runs[n][i]);
      }
    }
    forall i | 0 < i < |all| ensures Breaks(all[i - 1], all[i]) { assert Breaks(runs[i - 1], runs[i]); }
  }

  lemma {:induction false} RunAdded(runs: seq<seq<Sample>>, front: seq<Sample>, s: Sample)
    requires runs != [] && front != [] && AreTheRuns(runs, front) && !Joined(front[|front| - 1], s)
    ensures AreTheRuns(runs + [[s]], front + [s])
  {
    var all := runs + [[s]];
    assert forall i | 0 <= i < |runs| :: IsRun(runs[i]);
    ConcatEndsWith(runs);
    assert all[..|runs|] == runs;
    forall i | 0 < i < |all| ensures Breaks(all[i - 1], all[i]) {
      if i < |runs| { assert Breaks(runs[i - 1], runs[i]); }
    }
  }

  lemma {:induction false} RunDropped(runs: seq<seq<Sample>>, xs: seq<Sample>)
    requires runs != [] && AreTheRuns(runs, xs) && |runs[|runs| - 1]| == 1
    ensures xs != [] && AreTheRuns(runs[..|runs| - 1], xs[..|xs| - 1])
    ensures runs[|runs| - 1] == [xs[|xs| - 1]]
    ensures |runs| > 1 ==> |xs| > 1 && !Joined(xs[|xs| - 2], xs[|xs| - 1])
    ensures |runs| == 1 ==> |xs| == 1
  {
    var n := |runs| - 1;
    var rest := runs[..n];
    assert xs[..|xs| - 1] == Concat(rest);
    forall i | 0 <= i < n ensures IsRun(rest[i]) { assert IsRun(runs[i]); }
    forall i | 0 < i < n ensures Breaks(rest[i - 1], rest[i]) { assert Breaks(runs[i - 1], runs[i]); }
    if n > 0 {
      ConcatEndsWith(rest);
      assert Breaks(runs[n - 1], runs[n]);
    }
  }

  lemma {:induction false} RunClipped(runs: seq<seq<Sample>>, xs: seq<Sample>)
    requires runs != [] && AreTheRuns(runs, xs) && |runs[|runs| - 1]| > 1
    ensures |xs| > 1 && Joined(xs[|xs| - 2], xs[|xs| - 1])
    ensures AreTheRuns(runs[..|runs| - 1] + [runs[|runs| - 1][..|runs[|runs| - 1]| - 1]], xs[..|xs| - 1])
    ensures runs[|runs| - 1] == runs[|runs| - 1][..|runs[|runs| - 1]| - 1] + [xs[|xs| - 1]]
  {
    var n := |runs| - 1;
    var rest, last := runs[..n], runs[n];
    var short := last[..|last| - 1];
    var fewer := rest + [short];
    assert IsRun(last) && xs == Concat(rest) + last;
    assert Joined(last[|last| - 2], last[|last| - 1]);
    assert fewer[..n] == rest;
    assert xs[..|xs| - 1] == Concat(rest) + short;
    assert IsRun(short) by {
      forall i | 0 < i < |short| ensures Joined(short[i - 1], short[i]) { assert Joined(last[i - 1], last[i]); }
    }
    forall i | 0 <= i < |fewer| ensures IsRun(fewer[i]) { assert IsRun(runs[i]); }
    forall i | 0 < i < |fewer| ensures Breaks(fewer[i - 1], fewer[i]) { assert Breaks(runs[i - 1], runs[i]); }
  }

  lemma {:induction false} UniqueIfDropped(runs: seq<seq<Sample>>, xs: seq<Sample>)
    requires runs != [] && AreTheRuns(runs, xs) && |runs[|runs| - 1]| == 1 && xs != []
    requires runs[..|runs| - 1] == Runs(xs[..|xs| - 1])
    ensures runs == Runs(xs)
  {
    RunDropped(runs, xs);
    assert runs == runs[..|runs| - 1] + [[xs[|xs| - 1]]];
    if |runs| == 1 {
      assert xs == [xs[0]];
      FirstRun(xs[0]);
    } else {
      RunsOfMore(xs);
    }
  }

  lemma {:induction false} UniqueIfClipped(runs: seq<seq<Sample>>, xs: seq<Sample>, fewer: seq<seq<Sample>>)
    requires runs != [] && AreTheRuns(runs, xs) && |runs[|runs| - 1]| > 1 && |xs| > 1
    requires fewer == runs[..|runs| - 1] + [runs[|runs| - 1][..|runs[|runs| - 1]| - 1]] && fewer == Runs(xs[..|xs| - 1])
    ensures runs == Runs(xs)
  {
    RunClipped(runs, xs);
    RunsOfMore(xs);
    var n := |runs| - 1;
    assert fewer[..n] == runs[..n];
    assert runs == fewer[..n] + [fewer[n] + [xs[|xs| - 1]]];
  }

  /** There is only one way to cut readings into runs that cannot be longer. */
  lemma {:induction false} RunsAreUnique(runs: seq<seq<Sample>>, xs: seq<Sample>)
    requires AreTheRuns(runs, xs)
    ensures runs == Runs(xs)
    decreases |xs|
  {
    if runs != [] {
      var n := |runs| - 1;
      assert IsRun(runs[n]);
      if |runs[n]| == 1 {
        RunDropped(runs, xs);
        RunsAreUnique(runs[..n], xs[..|xs| - 1]);
        UniqueIfDropped(runs, xs);
      } else {
        RunClipped(runs, xs);
        var fewer := runs[..n] + [runs[n][..|runs[n]| - 1]];
        RunsAreUnique(fewer, xs[..|xs| - 1]);
        UniqueIfClipped(runs, xs, fewer);
      }
    }
  }

  // ---------------------------------------------------------------- an episode says what its run holds

  /** The most drawn over the run. */
  ghost function PeakOf(run: seq<Sample>): (r: Option<real>)
    ensures r.None? <==> forall i | 0 <= i < |run| :: run[i].power.None?
    ensures r.Some? ==> exists i | 0 <= i < |run| :: run[i].power == r
    ensures r.Some? ==> forall i | 0 <= i < |run| :: run[i].power.Some? ==> run[i].power.value <= r.value
  {
    if run == [] then None
    else
      var before, s := PeakOf(run[..|run| - 1]), run[|run| - 1];
      if s.power.Some? then Some(Higher(before, s.power.value)) else before
  }

  /** The limit as last reported in the run. */
  ghost function LimitOf(run: seq<Sample>): (r: Option<real>)
    ensures r.None? <==> forall i | 0 <= i < |run| :: run[i].limit.None?
    ensures r.Some? ==> exists i | 0 <= i < |run| :: run[i].limit == r && forall j | i < j < |run| :: run[j].limit.None?
  {
    if run == [] then None
    else if run[|run| - 1].limit.Some? then run[|run| - 1].limit
    else LimitOf(run[..|run| - 1])
  }

  ghost function Told(run: seq<Sample>, kind: Kind): Episode
    requires run != []
  {
    Episode(run[0].device, kind, run[0].value, At(run[0]), At(run[|run| - 1]), |run|, PeakOf(run), LimitOf(run))
  }

  ghost function ToldAll(runs: seq<seq<Sample>>, kind: Kind): seq<Episode>
    requires forall i | 0 <= i < |runs| :: IsRun(runs[i])
  {
    if runs == [] then []
    else
      assert IsRun(runs[|runs| - 1]);
      ToldAll(runs[..|runs| - 1], kind) + [Told(runs[|runs| - 1], kind)]
  }

  lemma {:induction false} RunValue(run: seq<Sample>, i: nat)
    requires IsRun(run) && i < |run|
    ensures run[i].value == run[0].value
  {
    if i > 0 {
      assert Joined(run[i - 1], run[i]);
      RunValue(run, i - 1);
    }
  }

  lemma {:induction false} ToldLonger(run: seq<Sample>, s: Sample, kind: Kind)
    requires run != []
    ensures Told(run + [s], kind) == Extended(Told(run, kind), s)
  {
    assert (run + [s])[..|run|] == run;
  }

  lemma {:induction false} ToldFirst(s: Sample, kind: Kind)
    ensures Told([s], kind) == Begun(s, kind)
  {
    assert [s][..0] == [];
  }

  ghost predicate FoldIs(f: Fold, xs: seq<Sample>, runs: seq<seq<Sample>>, kind: Kind, d: string)
    requires forall i | 0 <= i < |runs| :: IsRun(runs[i])
  {
    && xs != [] && runs != [] && IsRun(runs[|runs| - 1])
    && f.open == [Pair(d, Told(runs[|runs| - 1], kind))]
    && f.lastSeen == map[d := At(xs[|xs| - 1])]
    && f.out == ToldAll(runs[..|runs| - 1], kind)
  }

  lemma {:induction false} StepOnOne(f: Fold, e: Episode, seen: int, s: Sample, kind: Kind)
    requires f.open == [Pair(s.device, e)] && f.lastSeen == map[s.device := seen]
    ensures Step(f, s, kind) ==
      if e.value == s.value && At(s) - seen <= EPISODE_GAP_MS
      then Fold([Pair(s.device, Extended(e, s))], map[s.device := At(s)], f.out)
      else Fold([Pair(s.device, Begun(s, kind))], map[s.device := At(s)], f.out + [e])
  {
    assert Get(f.open, s.device) == Some(e);
  }

  lemma {:induction false} FoldStaysOneDevice(xs: seq<Sample>, s: Sample, kind: Kind, d: string)
    requires AreTheRuns(Runs(xs), xs) && FoldIs(Folded(xs, kind), xs, Runs(xs), kind, d) && s.device == d
    requires AreTheRuns(Runs(xs + [s]), xs + [s])
    ensures FoldIs(Folded(xs + [s], kind), xs + [s], Runs(xs + [s]), kind, d)
  {
    var f, runs, all := Folded(xs, kind), Runs(xs), Runs(xs + [s]);
    assert (xs + [s])[..|xs|] == xs;
    var n := |runs| - 1;
    var last := runs[n];
    ConcatEndsWith(runs) by { assert forall i | 0 <= i < |runs| :: IsRun(runs[i]); }
    RunValue(last, |last| - 1);
    assert xs[|xs| - 1] == last[|last| - 1];
    StepOnOne(f, Told(last, kind), At(xs[|xs| - 1]), s, kind);
    assert IsRun(all[|all| - 1]);
    if Joined(xs[|xs| - 1], s) {
      ToldLonger(last, s, kind);
      assert all == runs[..n] + [last + [s]];
      assert all[..n] == runs[..n];
    } else {
      ToldFirst(s, kind);
      assert all == runs + [[s]];
      assert all[..|runs|] == runs;
    }
  }

  lemma {:induction false} FoldOfFirst(s: Sample, kind: Kind)
    ensures Runs([s]) == [[s]] && AreTheRuns(Runs([s]), [s])
    ensures FoldIs(Folded([s], kind), [s], Runs([s]), kind, s.device)
  {
    FirstRun(s);
    ToldFirst(s, kind);
    assert [s][..0] == [] && [[s]][..0] == [];
    var nothing := Fold([], map[], []);
    assert Folded([], kind) == nothing;
    assert !Continues(nothing, s);
    assert Put(nothing.open, Pair(s.device, Begun(s, kind))) == [Pair(s.device, Begun(s, kind))];
  }

  lemma {:induction false} FoldOfOneDevice(xs: seq<Sample>, kind: Kind, d: string)
    requires xs != [] && forall x | x in xs :: x.device == d
    ensures AreTheRuns(Runs(xs), xs) && FoldIs(Folded(xs, kind), xs, Runs(xs), kind, d)
  {
    RunsAreTheRuns(xs);
    var front, s := xs[..|xs| - 1], xs[|xs| - 1];
    assert s in xs && front + [s] == xs;
    if front == [] {
      assert xs == [s];
      FoldOfFirst(s, kind);
    } else {
      FoldOfOneDevice(front, kind, d);
      FoldStaysOneDevice(front, s, kind, d);
    }
  }

  lemma {:induction false} ClosedOfOneDevice(xs: seq<Sample>, kind: Kind, d: string)
    requires forall x | x in xs :: x.device == d
    ensures AreTheRuns(Runs(xs), xs) && Closed(Folded(xs, kind)) == ToldAll(Runs(xs), kind)
  {
    RunsAreTheRuns(xs);
    if xs != [] {
      FoldOfOneDevice(xs, kind, d);
      var m := Folded(xs, kind).open;
      assert m[..0] == [];
      assert Values(m) == [m[0].value];
    }
  }

  lemma {:induction false} ToldAt(runs: seq<seq<Sample>>, kind: Kind, i: nat)
    requires (forall k | 0 <= k < |runs| :: IsRun(runs[k])) && i < |runs|
    ensures |ToldAll(runs, kind)| == |runs| && ToldAll(runs, kind)[i] == Told(runs[i], kind)
  {
    ToldLength(runs[..|runs| - 1], kind);
    if i < |runs| - 1 { ToldAt(runs[..|runs| - 1], kind, i); }
  }

  lemma {:induction false} ToldLength(runs: seq<seq<Sample>>, kind: Kind)
    requires forall k | 0 <= k < |runs| :: IsRun(runs[k])
    ensures |ToldAll(runs, kind)| == |runs|
  {
    if runs != [] { ToldLength(runs[..|runs| - 1], kind); }
  }

  /** Where run `i` starts in the readings. */
  ghost function StartOf(runs: seq<seq<Sample>>, i: nat): nat
    requires i <= |runs|
  {
    |Concat(runs[..i])|
  }

  lemma {:induction false} RunSits(runs: seq<seq<Sample>>, i: nat)
    requires i < |runs|
    ensures StartOf(runs, i) + |runs[i]| <= |Concat(runs)|
    ensures Concat(runs)[StartOf(runs, i)..StartOf(runs, i) + |runs[i]|] == runs[i]
    ensures StartOf(runs, i + 1) == StartOf(runs, i) + |runs[i]|
    decreases |runs|
  {
    assert runs[..i + 1][..i] == runs[..i];
    if i == |runs| - 1 {
      assert runs[..i + 1] == runs;
    } else {
      var front := runs[..|runs| - 1];
      RunSits(front, i);
      assert front[..i] == runs[..i];
    }
  }

  lemma {:induction false} StartsRise(runs: seq<seq<Sample>>, i: nat, j: nat)
    requires i <= j <= |runs|
    ensures StartOf(runs, i) <= StartOf(runs, j)
    decreases j
  {
    if i < j {
      RunSits(runs, j - 1);
      StartsRise(runs, i, j - 1);
    }
  }

  /** Runs of readings in time order begin in time order, so the final sort leaves one device's alone. */
  lemma {:induction false} ToldAreListed(xs: seq<Sample>, kind: Kind, names: (string, string) -> bool, d: string)
    requires TotalPreorder(names) && SortedBy(Earlier(), xs) && forall x | x in xs :: x.device == d
    requires AreTheRuns(Runs(xs), xs)
    ensures SortedBy(Listed(names), ToldAll(Runs(xs), kind))
  {
    var runs := Runs(xs);
    var told := ToldAll(runs, kind);
    ToldLength(runs, kind);
    forall i, j | 0 <= i < j < |told| ensures Listed(names)(told[i], told[j]) {
      ToldAt(runs, kind, i);
      ToldAt(runs, kind, j);
      RunSits(runs, i);
      RunSits(runs, j);
      StartsRise(runs, i + 1, j);
      assert IsRun(runs[i]) && IsRun(runs[j]);
      var a, b := StartOf(runs, i), StartOf(runs, j);
      assert xs[a..a + |runs[i]|][0] == xs[a] && xs[b..b + |runs[j]|][0] == xs[b];
      assert runs[i][0] == xs[a] && runs[j][0] == xs[b];
      assert a < b && Earlier()(xs[a], xs[b]);
      assert xs[a] in xs && xs[b] in xs;
      assert names(d, d) || names(d, d);
    }
  }

  lemma {:induction false} UsableAlone(samples: seq<Sample>, d: string)
    ensures SortedBy(Earlier(), Usable(Filter(OfDevice(d), samples)))
    ensures forall x | x in Usable(Filter(OfDevice(d), samples)) :: x.device == d
  {
    var mine := Filter(OfDevice(d), samples);
    FilterMembers(OfDevice(d), samples);
    FilterMembers(Parses(), mine);
    SortElements(Earlier(), Filter(Parses(), mine));
    EarlierIsAPreorder();
    SortSorted(Earlier(), Filter(Parses(), mine));
  }

  lemma {:induction false} EpisodesAlone(xs: seq<Sample>, kind: Kind, names: (string, string) -> bool, d: string)
    requires TotalPreorder(names) && SortedBy(Earlier(), xs) && forall x | x in xs :: x.device == d
    ensures AreTheRuns(Runs(xs), xs)
    ensures Sort(Listed(names), Closed(Folded(xs, kind))) == ToldAll(Runs(xs), kind)
  {
    ClosedOfOneDevice(xs, kind, d);
    ToldAreListed(xs, kind, names, d);
    SortOfSorted(Listed(names), ToldAll(Runs(xs), kind));
  }

  /**
   The episodes told of a device are exactly the maximal runs of its readings in time order: each says
   when its run began and ended, how many readings it holds, their peak and their last limit.
   */
  lemma {:induction false} EpisodesAreTheRuns(samples: seq<Sample>, kind: Kind, names: (string, string) -> bool,
        d: string)
    requires TotalPreorder(names)
    ensures AreTheRuns(Runs(Filter(OfDevice(d), Usable(samples))), Filter(OfDevice(d), Usable(samples)))
    ensures Filter(EpisodeOf(d), Episodes(samples, kind, names)) ==
      ToldAll(Runs(Filter(OfDevice(d), Usable(samples))), kind)
  {
    DeviceByDevice(samples, kind, names, d);
    UsableOfDevice(samples, d);
    UsableAlone(samples, d);
    EpisodesAlone(Usable(Filter(OfDevice(d), samples)), kind, names, d);
  }

  // ---------------------------------------------------------------- nothing lost, nothing doubled

  ghost function Counted(es: seq<Episode>): nat {
    if es == [] then 0 else es[0].samples + Counted(es[1..])
  }

  lemma {:induction false} CountedAppend(a: seq<Episode>, b: seq<Episode>)
    ensures Counted(a + b) == Counted(a) + Counted(b)
  {
    if a == [] {
      assert a + b == b;
    } else {
      assert (a + b)[1..] == a[1..] + b;
      CountedAppend(a[1..], b);
    }
  }

  lemma {:induction false} CountedInsert(le: (Episode, Episode) -> bool, e: Episode, es: seq<Episode>)
    ensures Counted(Insert(le, e, es)) == e.samples + Counted(es)
  {
    if es == [] || le(e, es[0]) {
      assert ([e] + es)[1..] == es;
    } else {
      CountedInsert(le, e, es[1..]);
      assert ([es[0]] + Insert(le, e, es[1..]))[1..] == Insert(le, e, es[1..]);
    }
  }

  lemma {:induction false} CountedSort(le: (Episode, Episode) -> bool, es: seq<Episode>)
    ensures Counted(Sort(le, es)) == Counted(es)
  {
    if es != [] {
      CountedSort(le, es[1..]);
      CountedInsert(le, es[0], Sort(le, es[1..]));
    }
  }

  lemma {:induction false} ValuesAppend(a: seq<Pair<Episode>>, b: seq<Pair<Episode>>)
    ensures Values(a + b) == Values(a) + Values(b)
  {
    if b == [] {
      assert a + b == a;
    } else {
      assert (a + b)[..|a + b| - 1] == a + b[..|b| - 1];
      ValuesAppend(a, b[..|b| - 1]);
    }
  }

  lemma {:induction false} CountedPut(m: seq<Pair<Episode>>, e: Pair<Episode>)
    ensures Counted(Values(Put(m, e))) + (if Get(m, e.key).Some? then Get(m, e.key).value.samples else 0)
         == Counted(Values(m)) + e.value.samples
  {
    var i := Find(m, e.key);
    assert [e][..0] == [];
    assert Values([e]) == [e.value];
    if i.None? {
      ValuesAppend(m, [e]);
      CountedAppend(Values(m), [e.value]);
    } else {
      var k := i.value;
      var a, b := m[..k], m[k + 1..];
      assert m == a + [m[k]] + b;
      assert Put(m, e) == a + [e] + b;
      assert [m[k]][..0] == [];
      assert Values([m[k]]) == [m[k].value];
      ValuesAppend(a + [m[k]], b);
      ValuesAppend(a, [m[k]]);
      ValuesAppend(a + [e], b);
      ValuesAppend(a, [e]);
      CountedAppend(Values(a) + [m[k].value], Values(b));
      CountedAppend(Values(a), [m[k].value]);
      CountedAppend(Values(a) + [e.value], Values(b));
      CountedAppend(Values(a), [e.value]);
    }
  }

  lemma {:induction false} StepCounts(f: Fold, s: Sample, kind: Kind)
    ensures Counted(Closed(Step(f, s, kind))) == Counted(Closed(f)) + 1
  {
    var g := Step(f, s, kind);
    var current := Get(f.open, s.device);
    CountedAppend(f.out, Values(f.open));
    CountedAppend(g.out, Values(g.open));
    CountedPut(f.open, Pair(s.device, Begun(s, kind)));
    if current.Some? {
      CountedPut(f.open, Pair(s.device, Extended(current.value, s)));
      CountedAppend(f.out, [current.value]);
    }
  }

  lemma {:induction false} FoldCounts(xs: seq<Sample>, kind: Kind)
    ensures Counted(Closed(Folded(xs, kind))) == |xs|
  {
    if xs != [] {
      FoldCounts(xs[..|xs| - 1], kind);
      StepCounts(Folded(xs[..|xs| - 1], kind), xs[|xs| - 1], kind);
    }
  }

  /** Every reading whose timestamp parses is counted in one episode, whatever the order they came in. */
  lemma {:induction false} EveryReadingCountsOnce(samples: seq<Sample>, kind: Kind, names: (string, string) -> bool)
    ensures Counted(Episodes(samples, kind, names)) == |Filter(Parses(), samples)|
  {
    var usable := Usable(samples);
    CountedSort(Listed(names), Closed(Folded(usable, kind)));
    FoldCounts(usable, kind);
    SortElements(Earlier(), Filter(Parses(), samples));
  }

  /** The episodes come out by when they began, then by device. */
  lemma {:induction false} EpisodesAreListed(samples: seq<Sample>, kind: Kind, names: (string, string) -> bool)
    requires TotalPreorder(names)
    ensures var es := Episodes(samples, kind, names);
            forall i, j | 0 <= i < j < |es| ::
              es[i].from < es[j].from || (es[i].from == es[j].from && names(es[i].device, es[j].device))
  {
    ListedIsAPreorder(names);
    SortSorted(Listed(names), Closed(Folded(Usable(samples), kind)));
  }
}
