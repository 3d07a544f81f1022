/**
 The readings export (`src/lib/readingsExport.ts`): paging through a table by its key, the check against
 an exact count, the workers that fetch the devices, and the file written in parts.

 A database's replies are inputs. `Honest` says which replies a table that does not change can give:
 to a request past a cursor, some of the rows past it, from the first on - however few the server likes.
 */
module ReadingsExport {
  import opened Wrappers
  import opened Sorting
  import Csv

  const PAGE := 1000
  const HOUR_MS := 3_600_000
  const NOT_A_READING := "offline — not a reading"

  /** A row of the table under its key, the timestamp. */
  datatype Row = Row(key: int, reading: string)

  datatype Reply = Page(rows: seq<Row>) | Refused

  datatype Problem = Unreadable | CursorDidNotAdvance

  datatype Outcome = Done(rows: seq<Row>) | Failed(problem: Problem) | Waiting(rows: seq<Row>)

  // ---------------------------------------------------------------- paging

  function PagedFrom(replies: seq<Reply>, cursor: Option<int>, out: seq<Row>): Outcome
    decreases |replies|
  {
    if replies == [] then Waiting(out)
    else if replies[0].Refused? then Failed(Unreadable)
    else
      var page := replies[0].rows;
      if page == [] then Done(out)
      else
        var last := page[|page| - 1].key;
        if cursor == Some(last) then Failed(CursorDidNotAdvance)
        else PagedFrom(replies[1..], Some(last), out + page)
  }

  function Paged(replies: seq<Reply>): Outcome { PagedFrom(replies, None, []) }

  method PageAll(replies: seq<Reply>) returns (r: Outcome)
    ensures r == Paged(replies)
  {
    var out: seq<Row> := [];
    var cursor: Option<int> := None;
    for i := 0 to |replies|
      invariant PagedFrom(replies[i..], cursor, out) == Paged(replies)
    {
      assert replies[i..][1..] == replies[i + 1..];
      if replies[i].Refused? { return Failed(Unreadable); }
      var page := replies[i].rows;
      if page == [] { return Done(out); }
      var last := page[|page| - 1].key;
      if cursor == Some(last) { return Failed(CursorDidNotAdvance); }
      out := out + page;
      cursor := Some(last);
    }
    return Waiting(out);
  }

  // ---------------------------------------------------------------- what a table can reply

  ghost predicate Ordered(table: seq<Row>) {
    forall i, j | 0 <= i < j < |table| :: table[i].key <= table[j].key
  }

  ghost predicate Unique(table: seq<Row>) {
    forall i, j | 0 <= i < j < |table| :: table[i].key < table[j].key
  }

  function Past(cursor: Option<int>): Row -> bool {
    (r: Row) => cursor.None? || r.key > cursor.value
  }

  function After(table: seq<Row>, cursor: Option<int>): seq<Row> {
    Filter(Past(cursor), table)
  }

  ghost predicate Honest(table: seq<Row>, replies: seq<Reply>, cursor: Option<int>)
    decreases |replies|
  {
    replies == [] || replies[0].Refused? || (
      var page := replies[0].rows;
      && page <= After(table, cursor) && |page| <= PAGE
      && (page == [] || Honest(table, replies[1..], Some(page[|page| - 1].key))))
  }

  /** No empty page while rows remain, and no page that ends between two rows of one key. */
  ghost predicate Whole(table: seq<Row>, replies: seq<Reply>, cursor: Option<int>)
    decreases |replies|
  {
    replies == [] || replies[0].Refused? || (
      var page, remain := replies[0].rows, After(table, cursor);
      && (page == [] ==> remain == [])
      && (page == [] || (
        && (|page| < |remain| ==> remain[|page|].key != page[|page| - 1].key)
        && Whole(table, replies[1..], Some(page[|page| - 1].key)))))
  }

  /** No empty page while rows remain. */
  ghost predicate Fed(table: seq<Row>, replies: seq<Reply>, cursor: Option<int>)
    decreases |replies|
  {
    replies == [] || replies[0].Refused? || (
      var page := replies[0].rows;
      && (page == [] ==> After(table, cursor) == [])
      && (page == [] || Fed(table, replies[1..], Some(page[|page| - 1].key))))
  }

  /** In an ordered list the rows past a cursor are what is left after some of the first. */
  lemma {:induction false} PastIsTheRest(rows: seq<Row>, cursor: Option<int>) returns (m: nat)
    requires Ordered(rows)
    ensures m <= |rows| && After(rows, cursor) == rows[m..]
    ensures forall i | 0 <= i < m :: !Past(cursor)(rows[i])
    ensures forall i | m <= i < |rows| :: Past(cursor)(rows[i])
  {
    if rows == [] {
      m := 0;
    } else if Past(cursor)(rows[0]) {
      m := 0;
      KeepsAll(rows, cursor);
    } else {
      var k := PastIsTheRest(rows[1..], cursor);
      m := k + 1;
    }
  }

  lemma {:induction false} KeepsAll(rows: seq<Row>, cursor: Option<int>)
    requires forall i | 0 <= i < |rows| :: Past(cursor)(rows[i])
    ensures After(rows, cursor) == rows
  {
    if rows != [] { KeepsAll(rows[1..], cursor); }
  }

  lemma {:induction false} PastPast(table: seq<Row>, cursor: Option<int>, last: int)
    requires cursor.None? || cursor.value < last
    ensures After(table, Some(last)) == After(After(table, cursor), Some(last))
  {
    if table != [] { PastPast(table[1..], cursor, last); }
  }

  /** What remains after a page: the rows not yet given, less those sharing the key the page ended on. */
  lemma {:induction false} Remains(table: seq<Row>, cursor: Option<int>, page: seq<Row>) returns (m: nat)
    requires Ordered(table) && page != [] && page <= After(table, cursor)
    ensures cursor != Some(page[|page| - 1].key)
    ensures |page| <= m <= |After(table, cursor)|
    ensures After(table, Some(page[|page| - 1].key)) == After(table, cursor)[m..]
    ensures m == |page| <==>
      |page| == |After(table, cursor)| || After(table, cursor)[|page|].key != page[|page| - 1].key
  {
    var remain := After(table, cursor);
    var last := page[|page| - 1].key;
    var k := PastIsTheRest(table, cursor);
    assert forall i | 0 <= i < |remain| :: remain[i] == table[k + i];
    assert remain[|page| - 1].key == last && Past(cursor)(remain[|page| - 1]);
    PastPast(table, cursor, last);
    m := PastIsTheRest(remain, Some(last));
    assert forall i | 0 <= i < |page| :: !Past(Some(last))(remain[i]);
    assert |page| < |remain| ==> last <= remain[|page|].key;
  }

  /** The rows fetched so far stay, and what follows is never more than what remained. */
  lemma {:induction false} FetchedIsBounded(table: seq<Row>, replies: seq<Reply>, cursor: Option<int>, out: seq<Row>)
    requires Ordered(table) && Honest(table, replies, cursor)
    ensures PagedFrom(replies, cursor, out) != Failed(CursorDidNotAdvance)
    ensures PagedFrom(replies, cursor, out).Done? ==>
      var rows, remain := PagedFrom(replies, cursor, out).rows, After(table, cursor);
      && out <= rows && |rows| <= |out| + |remain|
      && (|rows| == |out| + |remain| ==> rows == out + remain)
    decreases |replies|
  {
    if replies != [] && replies[0].Page? && replies[0].rows != [] {
      var page, remain := replies[0].rows, After(table, cursor);
      var m := Remains(table, cursor, page);
      var last := page[|page| - 1].key;
      FetchedIsBounded(table, replies[1..], Some(last), out + page);
      var o := PagedFrom(replies, cursor, out);
      assert o == PagedFrom(replies[1..], Some(last), out + page);
      assert remain == page + remain[|page|..];
      assert o.Done? ==> out <= out + page <= o.rows;
      assert m == |page| ==> out + page + remain[m..] == out + remain;
    }
  }

  lemma {:induction false} WholeExactly(table: seq<Row>, replies: seq<Reply>, cursor: Option<int>, out: seq<Row>)
    requires Ordered(table) && Honest(table, replies, cursor) && PagedFrom(replies, cursor, out).Done?
    ensures PagedFrom(replies, cursor, out).rows == out + After(table, cursor) <==> Whole(table, replies, cursor)
    decreases |replies|
  {
    var page, remain := replies[0].rows, After(table, cursor);
    if page == [] {
      assert out + [] == out;
      assert remain != [] ==> |out + remain| > |out|;
    } else {
      var m := Remains(table, cursor, page);
      var last := page[|page| - 1].key;
      FetchedIsBounded(table, replies[1..], Some(last), out + page);
      WholeExactly(table, replies[1..], Some(last), out + page);
      var rows := PagedFrom(replies, cursor, out).rows;
      assert remain == page + remain[|page|..];
      if m == |page| {
        assert out + page + remain[m..] == out + remain;
      } else {
        assert |rows| < |out + remain|;
      }
    }
  }

  lemma {:induction false} AllIsPastNone(table: seq<Row>)
    ensures After(table, None) == table
  {
    KeepsAll(table, None);
  }

  /**
   Over a table that does not change, the paging never stops for a cursor that did not advance, and what
   it returns is the whole table in order if and only if the server gave no empty page while rows
   remained and cut no page between two rows of one key.
   */
  lemma {:induction false} PagingIsWholeExactly(table: seq<Row>, replies: seq<Reply>)
    requires Ordered(table) && Honest(table, replies, None)
    ensures Paged(replies) != Failed(CursorDidNotAdvance)
    ensures Paged(replies).Done? ==> (Paged(replies).rows == table <==> Whole(table, replies, None))
  {
    AllIsPastNone(table);
    FetchedIsBounded(table, replies, None, []);
    if Paged(replies).Done? {
      WholeExactly(table, replies, None, []);
      assert [] + table == table;
    }
  }

  lemma {:induction false} UniqueIsNeverTorn(table: seq<Row>, replies: seq<Reply>, cursor: Option<int>)
    requires Unique(table) && Honest(table, replies, cursor)
    ensures Whole(table, replies, cursor) <==> Fed(table, replies, cursor)
    decreases |replies|
  {
    if replies != [] && replies[0].Page? && replies[0].rows != [] {
      var page, remain := replies[0].rows, After(table, cursor);
      assert Ordered(table);
      var k := PastIsTheRest(table, cursor);
      assert forall i | 0 <= i < |remain| :: remain[i] == table[k + i];
      assert page[|page| - 1] == remain[|page| - 1];
      assert |page| < |remain| ==> remain[|page| - 1].key < remain[|page|].key;
      UniqueIsNeverTorn(table, replies[1..], Some(page[|page| - 1].key));
    }
  }

  lemma {:induction false} PagingEndsFrom(table: seq<Row>, replies: seq<Reply>, cursor: Option<int>, out: seq<Row>)
    requires Ordered(table) && Honest(table, replies, cursor) && Fed(table, replies, cursor)
    requires (forall i | 0 <= i < |replies| :: replies[i].Page?) && |replies| > |After(table, cursor)|
    ensures PagedFrom(replies, cursor, out).Done?
    decreases |replies|
  {
    var page := replies[0].rows;
    if page != [] {
      var m := Remains(table, cursor, page);
      PagingEndsFrom(table, replies[1..], Some(page[|page| - 1].key), out + page);
    }
  }

  /** With unique keys and a server that always gives something while rows remain, however little, every row
      comes once and in order, after at most one request for each row and one more. */
  lemma {:induction false} PagingEndsWithEveryRow(table: seq<Row>, replies: seq<Reply>)
    requires Unique(table) && Honest(table, replies, None) && Fed(table, replies, None)
    requires (forall i | 0 <= i < |replies| :: replies[i].Page?) && |replies| > |table|
    ensures Paged(replies) == Done(table)
  {
    assert Ordered(table);
    AllIsPastNone(table);
    PagingEndsFrom(table, replies, None, []);
    UniqueIsNeverTorn(table, replies, None);
    PagingIsWholeExactly(table, replies);
  }

  /** Why the key must be the table's own: of two rows of one key across a page boundary the second is never fetched. */
  lemma {:induction false} ASharedKeyIsLost()
    ensures var a, b := Row(7, "a"), Row(7, "b");
      && Honest([a, b], [Page([a]), Page([])], None) && Fed([a, b], [Page([a]), Page([])], None)
      && Paged([Page([a]), Page([])]) == Done([a])
  {
    var a, b := Row(7, "a"), Row(7, "b");
    var table, replies := [a, b], [Page([a]), Page([])];
    AllIsPastNone(table);
    assert replies[1..] == [Page([])];
    var m := PastIsTheRest(table, Some(7));
    assert !Past(Some(7))(table[1]);
    assert m == 2;
    assert [a] <= table;
    assert Honest(table, replies[1..], Some(7)) && Fed(table, replies[1..], Some(7));
    assert [] + [a] == [a];
    assert PagedFrom(replies[1..], Some(7), [a]) == Done([a]);
  }

  // ---------------------------------------------------------------- the exact count

  datatype CountReply = Uncountable | Counted(count: Option<int>)

  datatype Trouble = ReadTrouble(problem: Problem) | CountTrouble | Changed(fetched: nat, counted: int)

  datatype Fetch = Read(rows: seq<Row>) | Gone(trouble: Trouble) | Pending

  function FetchCloudRaw(replies: seq<Reply>, counted: CountReply): Fetch {
    match Paged(replies)
    case Waiting(_) => Pending
    case Failed(p) => Gone(ReadTrouble(p))
    case Done(rows) =>
      if counted.Uncountable? then Gone(CountTrouble)
      else if counted.count.Some? && counted.count.value != |rows| then Gone(Changed(|rows|, counted.count.value))
      else Read(rows)
  }

  /**
   With the table's own count, rows are returned only if they are every row in order: neither a page cut
   short nor a key shared across a boundary gets through. They are returned exactly when the paging was
   whole.
   */
  lemma {:induction false} TheCountLeavesNoHole(table: seq<Row>, replies: seq<Reply>)
    requires Ordered(table) && Honest(table, replies, None)
    ensures FetchCloudRaw(replies, Counted(Some(|table|))).Read? ==>
      FetchCloudRaw(replies, Counted(Some(|table|))).rows == table
    ensures FetchCloudRaw(replies, Counted(Some(|table|))).Read? <==>
      Paged(replies).Done? && Whole(table, replies, None)
  {
    AllIsPastNone(table);
    FetchedIsBounded(table, replies, None, []);
    PagingIsWholeExactly(table, replies);
    assert [] + table == table;
  }

  /**
   Of rows returned beside the table's count or beside no count: they are
   the whole table if and only if there was a count or the paging was whole.
   */
  lemma {:induction false} NoHoleExactly(table: seq<Row>, replies: seq<Reply>, count: Option<int>)
    requires Ordered(table) && Honest(table, replies, None) && (count.Some? ==> count.value == |table|)
    requires FetchCloudRaw(replies, Counted(count)).Read?
    ensures FetchCloudRaw(replies, Counted(count)).rows == table <==> count.Some? || Whole(table, replies, None)
  {
    PagingIsWholeExactly(table, replies);
    if count.Some? { TheCountLeavesNoHole(table, replies); }
  }

  /**
   And where the key is the table's primary key, as in both tables paged, if and only if there was a count or
   the server gave no empty page while rows remained.
   */
  lemma {:induction false} NoHoleOfUniqueKeysExactly(table: seq<Row>, replies: seq<Reply>, count: Option<int>)
    requires Unique(table) && Honest(table, replies, None) && (count.Some? ==> count.value == |table|)
    requires FetchCloudRaw(replies, Counted(count)).Read?
    ensures FetchCloudRaw(replies, Counted(count)).rows == table <==> count.Some? || Fed(table, replies, None)
  {
    assert Ordered(table);
    NoHoleExactly(table, replies, count);
    UniqueIsNeverTorn(table, replies, None);
  }

  /**
   When the service gives no number the check is passed over: a
   page empty too early makes an empty file of a table with rows.
   */
  lemma {:induction false} WithoutACountAHoleGetsThrough(row: Row)
    ensures Unique([row]) && Honest([row], [Page([])], None) && !Fed([row], [Page([])], None)
    ensures FetchCloudRaw([Page([])], Counted(None)) == Read([])
    ensures FetchCloudRaw([Page([])], Counted(Some(1))) == Gone(Changed(0, 1))
  {
    AllIsPastNone([row]);
  }

  // ---------------------------------------------------------------- minutes and hours

  function HourOf(ms: int): int { ms / HOUR_MS }

  function RawHours(raw: seq<Row>): (r: set<int>)
    ensures forall h :: h in r <==> exists i | 0 <= i < |raw| :: HourOf(raw[i].key) == h
  {
    set i | 0 <= i < |raw| :: HourOf(raw[i].key)
  }

  function WithoutRaw(raw: seq<Row>): Row -> bool {
    (h: Row) => HourOf(h.key) !in RawHours(raw)
  }

  /** The hourly rows kept: those of hours with no minute left. */
  function HourlyOnly(raw: seq<Row>, hours: seq<Row>): seq<Row> {
    Filter(WithoutRaw(raw), hours)
  }

  /** No hour is told twice over, and none that has either kind of row goes untold. */
  lemma {:induction false} EveryHourIsToldOneWay(raw: seq<Row>, hours: seq<Row>, hour: int)
    ensures (exists r | r in raw :: InHour(r, hour)) ==> !exists h | h in HourlyOnly(raw, hours) :: InHour(h, hour)
    ensures forall h | h in hours && InHour(h, hour) ::
      h in HourlyOnly(raw, hours) <==> !exists r | r in raw :: InHour(r, hour)
    ensures forall h | h in HourlyOnly(raw, hours) :: h in hours
  {
    forall r: Row { HoursApart(r, hour); }
    FilterMembers(WithoutRaw(raw), hours);
    if r :| r in raw && InHour(r, hour) {
      var i :| 0 <= i < |raw| && raw[i] == r;
      assert HourOf(raw[i].key) == hour;
      assert hour in RawHours(raw);
    } else {
      assert hour !in RawHours(raw);
    }
  }

  /** The row's instant is in the hour, counted from the epoch. */
  ghost predicate InHour(r: Row, hour: int) { hour * 3600000 <= r.key < (hour + 1) * 3600000 }

  lemma {:induction false} HoursApart(r: Row, hour: int)
    ensures InHour(r, hour) <==> HourOf(r.key) == hour
  {}

  // ---------------------------------------------------------------- the workers

  datatype Worker = Busy(index: nat) | Ended | Broken(index: nat)

  /** `begun` and `given` are history: the indexes fetched, in order, and what each fetch gave. */
  datatype Pool = Pool(devices: nat, next: nat, workers: seq<Worker>, results: seq<Option<seq<Row>>>, begun: seq<nat>,
    given: map<nat, seq<Row>>)

  function Begin(p: Pool, w: nat): Pool
    requires w < |p.workers|
  {
    if p.next < p.devices
    then p.(workers := p.workers[w := Busy(p.next)], next := p.next + 1, begun := p.begun + [p.next])
    else p.(workers := p.workers[w := Ended])
  }

  function BeginAll(p: Pool, started: nat): (q: Pool)
    requires started <= |p.workers|
    ensures |q.workers| == |p.workers|
  {
    if started == 0 then p else Begin(BeginAll(p, started - 1), started - 1)
  }

  function WorkerCount(devices: nat, concurrency: int): (k: nat)
    ensures k >= 1 && (devices < 1 || concurrency < 1 ==> k == 1)
    ensures devices >= 1 && concurrency >= 1 ==>
      k <= devices && k <= concurrency && (k == devices || k == concurrency)
  {
    var k := if concurrency < devices then concurrency else devices;
    if k < 1 then 1 else k
  }

  function Empty(devices: nat): (r: seq<Option<seq<Row>>>)
    ensures |r| == devices && forall i | 0 <= i < devices :: r[i] == None
  {
    seq(devices, i => None)
  }

  function Idle(devices: nat, count: nat): Pool {
    Pool(devices, 0, seq(count, i => Ended), Empty(devices), [], map[])
  }

  function Start(devices: nat, concurrency: int): Pool {
    BeginAll(Idle(devices, WorkerCount(devices, concurrency)), WorkerCount(devices, concurrency))
  }

  datatype PoolEvent = Fetched(worker: nat, rows: seq<Row>) | FetchFailed(worker: nat)

  ghost predicate Possible(p: Pool, e: PoolEvent) {
    e.worker < |p.workers| && p.workers[e.worker].Busy? && p.workers[e.worker].index < |p.results|
  }

  /** A fetch that gave its rows stores them and the worker goes on; one that failed ends its worker. */
  ghost function PoolStep(p: Pool, e: PoolEvent): Pool
    requires Possible(p, e)
  {
    var i := p.workers[e.worker].index;
    match e
    case Fetched(w, rows) => Begin(p.(results := p.results[i := Some(rows)], given := p.given[i := rows]), w)
    case FetchFailed(w) => p.(workers := p.workers[w := Broken(i)])
  }

  ghost predicate Serves(worker: Worker, index: nat) {
    (worker.Busy? || worker.Broken?) && worker.index == index
  }

  ghost predicate Sound(p: Pool) {
    && p.next <= p.devices && |p.results| == p.devices
    && |p.begun| == p.next && (forall i | 0 <= i < p.next :: p.begun[i] == i)
    && (forall v, w | 0 <= v < w < |p.workers| && !p.workers[v].Ended? :: !Serves(p.workers[w], p.workers[v].index))
    && (forall w | 0 <= w < |p.workers| && !p.workers[w].Ended? ::
       p.workers[w].index < p.next && p.workers[w].index !in p.given)
    && (forall i | i in p.given :: i < p.next && p.results[i] == Some(p.given[i]))
    && (forall i | 0 <= i < p.devices && i !in p.given :: p.results[i] == None)
  }

  /** Each index begun is either done or in one worker's hands. */
  ghost predicate Covered(p: Pool) {
    forall i: nat | i < p.next && i !in p.given :: InHand(p, i)
  }

  ghost predicate InHand(p: Pool, i: nat) {
    exists w | 0 <= w < |p.workers| :: Serves(p.workers[w], i)
  }

  /** A worker has ended only because nothing was left to take. */
  ghost predicate Diligent(p: Pool, started: nat) {
    forall w | 0 <= w < |p.workers| && w < started && p.workers[w].Ended? :: p.next == p.devices
  }

  lemma {:induction false} BeginKeepsSound(p: Pool, w: nat)
    requires Sound(p) && w < |p.workers| && (p.workers[w].Ended? || p.workers[w].index in p.given)
    ensures Sound(Begin(p, w))
  {}

  lemma {:induction false} BeginSound(p: Pool, w: nat)
    requires w < |p.workers| && Sound(p.(workers := p.workers[w := Ended]))
    ensures Sound(Begin(p, w))
  {
    var q := p.(workers := p.workers[w := Ended]);
    assert Begin(p, w) == Begin(q, w) by {
      assert q.workers[w := Ended] == p.workers[w := Ended];
      assert q.workers[w := Busy(p.next)] == p.workers[w := Busy(p.next)];
    }
    BeginKeepsSound(q, w);
  }

  lemma {:induction false} BeginCovers(p: Pool, w: nat)
    requires w < |p.workers| && Covered(p.(workers := p.workers[w := Ended]))
    ensures Covered(Begin(p, w))
  {
    var q, r := p.(workers := p.workers[w := Ended]), Begin(p, w);
    forall i: nat | i < r.next && i !in r.given ensures InHand(r, i) {
      if i < p.next {
        assert InHand(q, i);
        var v :| 0 <= v < |q.workers| && Serves(q.workers[v], i);
        assert Serves(r.workers[v], i);
      } else {
        assert Serves(r.workers[w], i);
      }
    }
  }

  lemma {:induction false} BeginAllKeeps(p: Pool, started: nat)
    requires started <= |p.workers| && Sound(p) && Covered(p)
      && forall w | 0 <= w < |p.workers| :: p.workers[w] == Ended
    ensures Sound(BeginAll(p, started)) && Covered(BeginAll(p, started)) && Diligent(BeginAll(p, started), started)
    ensures BeginAll(p, started).devices == p.devices
    ensures forall w | started <= w < |p.workers| :: BeginAll(p, started).workers[w] == Ended
  {
    if started > 0 {
      BeginAllKeeps(p, started - 1);
      var q := BeginAll(p, started - 1);
      assert q.workers[started - 1 := Ended] == q.workers;
      BeginSound(q, started - 1);
      BeginCovers(q, started - 1);
    }
  }

  lemma {:induction false} StartKeeps(devices: nat, concurrency: int)
    ensures var p := Start(devices, concurrency);
      Sound(p) && Covered(p) && Diligent(p, |p.workers|) && p.devices == devices
        && |p.workers| == WorkerCount(devices, concurrency)
  {
    BeginAllKeeps(Idle(devices, WorkerCount(devices, concurrency)), WorkerCount(devices, concurrency));
  }

  lemma {:induction false} FetchedKeeps(p: Pool, w: nat, rows: seq<Row>)
    requires Sound(p) && Covered(p) && Diligent(p, |p.workers|) && Possible(p, Fetched(w, rows))
    ensures var q := PoolStep(p, Fetched(w, rows)); Sound(q) && Covered(q) && Diligent(q, |q.workers|)
  {
    var i := p.workers[w].index;
    var stored := p.(results := p.results[i := Some(rows)], given := p.given[i := rows]);
    var freed := stored.(workers := stored.workers[w := Ended]);
    assert Sound(freed) by {
      forall v | 0 <= v < |freed.workers| && !freed.workers[v].Ended?
        ensures freed.workers[v].index < freed.next && freed.workers[v].index !in freed.given
      {
        assert Serves(p.workers[w], i) && Serves(p.workers[v], freed.workers[v].index);
      }
    }
    forall k: nat | k < freed.next && k !in freed.given ensures InHand(freed, k) {
      assert InHand(p, k);
      var v :| 0 <= v < |p.workers| && Serves(p.workers[v], k);
      assert Serves(freed.workers[v], k);
    }
    BeginSound(stored, w);
    BeginCovers(stored, w);
  }

  lemma {:induction false} FailedKeeps(p: Pool, w: nat)
    requires Sound(p) && Covered(p) && Diligent(p, |p.workers|) && Possible(p, FetchFailed(w))
    ensures var q := PoolStep(p, FetchFailed(w)); Sound(q) && Covered(q) && Diligent(q, |q.workers|)
  {
    var q := PoolStep(p, FetchFailed(w));
    forall u, v | 0 <= u < v < |q.workers| && !q.workers[u].Ended? ensures !Serves(q.workers[v], q.workers[u].index) {
      assert !p.workers[u].Ended? && q.workers[u].index == p.workers[u].index;
      assert !Serves(p.workers[v], p.workers[u].index);
    }
    forall k: nat | k < q.next && k !in q.given ensures InHand(q, k) {
      assert InHand(p, k);
      var v :| 0 <= v < |p.workers| && Serves(p.workers[v], k);
      assert Serves(q.workers[v], k);
    }
  }

  ghost function PoolRun(p: Pool, events: seq<PoolEvent>): Option<Pool>
    decreases |events|
  {
    if events == [] then Some(p)
    else if Possible(p, events[0]) then PoolRun(PoolStep(p, events[0]), events[1..])
    else None
  }

  lemma {:induction false} RunKeeps(p: Pool, events: seq<PoolEvent>)
    requires Sound(p) && Covered(p) && Diligent(p, |p.workers|) && PoolRun(p, events).Some?
    ensures var q := PoolRun(p, events).value;
      Sound(q) && Covered(q) && Diligent(q, |q.workers|) && q.devices == p.devices && |q.workers| == |p.workers|
    decreases |events|
  {
    if events != [] {
      match events[0] {
        case Fetched(w, rows) => FetchedKeeps(p, w, rows);
        case FetchFailed(w) => FailedKeeps(p, w);
      }
      RunKeeps(PoolStep(p, events[0]), events[1..]);
    }
  }

  ghost predicate Finished(p: Pool) {
    forall w | 0 <= w < |p.workers| :: p.workers[w].Ended?
  }

  /**
   In every run from the start: the devices are begun once each and in order, no two workers ever hold the
   same one, and a result is only ever the rows its own fetch gave.
   */
  lemma {:induction false} EachDeviceIsFetchedOnce(devices: nat, concurrency: int, events: seq<PoolEvent>)
    requires PoolRun(Start(devices, concurrency), events).Some?
    ensures var p := PoolRun(Start(devices, concurrency), events).value;
      && |p.workers| == WorkerCount(devices, concurrency)
      && (forall i | 0 <= i < |p.begun| :: p.begun[i] == i) && |p.begun| <= devices == |p.results|
      && (forall v, w | 0 <= v < w < |p.workers| && p.workers[v].Busy? && p.workers[w].Busy? ::
         p.workers[v].index != p.workers[w].index)
      && (forall i | 0 <= i < devices :: p.results[i] == if i in p.given then Some(p.given[i]) else None)
  {
    StartKeeps(devices, concurrency);
    RunKeeps(Start(devices, concurrency), events);
    var p := PoolRun(Start(devices, concurrency), events).value;
    forall v, w | 0 <= v < w < |p.workers| && p.workers[v].Busy? && p.workers[w].Busy?
      ensures p.workers[v].index != p.workers[w].index
    {
      assert !Serves(p.workers[w], p.workers[v].index);
    }
  }

  lemma {:induction false} NobodyHolds(p: Pool, i: nat)
    requires Finished(p)
    ensures !InHand(p, i)
  {}

  /** When every worker has ended, every device has its rows. */
  lemma {:induction false} FinishedIsFilled(devices: nat, concurrency: int, events: seq<PoolEvent>)
    requires PoolRun(Start(devices, concurrency), events).Some?
    requires Finished(PoolRun(Start(devices, concurrency), events).value)
    ensures var p := PoolRun(Start(devices, concurrency), events).value;
      |p.results| == devices && forall i | 0 <= i < devices :: i in p.given && p.results[i] == Some(p.given[i])
  {
    StartKeeps(devices, concurrency);
    RunKeeps(Start(devices, concurrency), events);
    var p := PoolRun(Start(devices, concurrency), events).value;
    assert p.workers[0].Ended?;
    forall i: nat | i < devices ensures i in p.given {
      NobodyHolds(p, i);
    }
  }

  /** Each event that gives rows takes one device off what is left, so the fetching ends. */
  lemma {:induction false} FetchingEnds(p: Pool, w: nat, rows: seq<Row>)
    requires Sound(p) && Possible(p, Fetched(w, rows))
    ensures |PoolStep(p, Fetched(w, rows)).given| == |p.given| + 1 <= p.devices
  {
    var i := p.workers[w].index;
    assert p.given[i := rows].Keys == p.given.Keys + {i};
    IndexesBelow(p.given.Keys + {i}, p.devices);
  }

  lemma {:induction false} IndexesBelow(indexes: set<nat>, n: nat)
    requires forall i | i in indexes :: i < n
    ensures |indexes| <= n
  {
    if n == 0 {
      assert indexes == {};
    } else {
      IndexesBelow(indexes - {n - 1}, n - 1);
    }
  }

  /** The shared variables of the workers, changed as each goes on. */
  class Fetching {
    const devices: nat
    var next: nat
    var results: seq<Option<seq<Row>>>
    var workers: seq<Worker>
    ghost var begun: seq<nat>
    ghost var given: map<nat, seq<Row>>

    ghost function State(): Pool
      reads this
    {
      Pool(devices, next, workers, results, begun, given)
    }

    constructor (devices: nat, concurrency: int)
      ensures State() == Start(devices, concurrency)
    {
      var count := WorkerCount(devices, concurrency);
      this.devices := devices;
      next, results := 0, Empty(devices);
      workers := seq(count, i => Ended);
      begun, given := [], map[];
      new;
      for w := 0 to count
        invariant |workers| == count
        invariant State() == BeginAll(Idle(devices, count), w)
      {
        Take(w);
      }
    }

    method Take(w: nat)
      requires w < |workers|
      modifies this
      ensures State() == Begin(old(State()), w)
    {
      if next < devices {
        begun := begun + [next];
        workers := workers[w := Busy(next)];
        next := next + 1;
      } else {
        workers := workers[w := Ended];
      }
    }

    method Store(w: nat, rows: seq<Row>)
      requires Possible(State(), Fetched(w, rows))
      modifies this
      ensures State() == PoolStep(old(State()), Fetched(w, rows))
    {
      var i := workers[w].index;
      results := results[i := Some(rows)];
      given := given[i := rows];
      Take(w);
    }

    method Fail(w: nat)
      requires Possible(State(), FetchFailed(w))
      modifies this
      ensures State() == PoolStep(old(State()), FetchFailed(w))
    {
      workers := workers[w := Broken(workers[w].index)];
    }
  }

  // ---------------------------------------------------------------- the file in parts

  type Cells = seq<Option<string>>

  function PartOf(lines: seq<Cells>): string { "\r\n" + Csv.Printed(lines) }

  function PartsOf(header: Cells, devices: seq<seq<Cells>>): seq<string> {
    if devices == [] then [Csv.CsvLine(header)]
    else
      var before, lines := PartsOf(header, devices[..|devices| - 1]), devices[|devices| - 1];
      if lines == [] then before else before + [PartOf(lines)]
  }

  /** What a device is called, and where it is; a device not listed goes by its id. */
  datatype Naming = Naming(id: string, name: string, circuit: Option<string>, use: Option<string>)

  /** A minute reading and an hour's average, with the texts of their stamps, rounded figures and notes. */
  datatype Minute = Minute(
    at: int, stamp: string, voltage: Option<string>, current: Option<string>, power: Option<string>,
    energy: Option<string>, online: bool, note: Option<string>)
  datatype Hourly = Hourly(
    at: int, stamp: string, voltage: Option<string>, current: Option<string>, power: Option<string>,
    maxPower: Option<string>, energy: Option<string>, coverage: string, note: Option<string>)

  datatype Readings = Readings(device: string, raw: seq<Minute>, hourly: seq<Hourly>)

  datatype Line = Line(at: int, cells: Cells)

  function NamingOf(listed: seq<Naming>, id: string): (n: Naming)
    ensures n.id == id
    ensures (forall x | x in listed :: x.id != id) ==> n == Naming(id, id, None, None)
    ensures (exists x | x in listed :: x.id == id) ==>
      exists i | 0 <= i < |listed| :: listed[i] == n && forall j | 0 <= j < i :: listed[j].id != id
  {
    if listed == [] then Naming(id, id, None, None)
    else if listed[0].id == id then listed[0]
    else
      var n := NamingOf(listed[1..], id);
      assert forall x | x in listed :: x == listed[0] || x in listed[1..];
      assert forall i | 0 <= i < |listed[1..]| && listed[1..][i] == n :: listed[i + 1] == n;
      n
  }

  function Heading(who: Naming, stamp: string, resolution: string): Cells {
    [Some(stamp), Some(who.id), Some(who.name), who.circuit, who.use, Some(resolution)]
  }

  /** An offline row repeats the last values it had; they are no reading and are not printed. */
  function MinuteLine(who: Naming, m: Minute): (l: Line)
    ensures l.at == m.at && |l.cells| == 13
    ensures l.cells[0] == Some(m.stamp)
      && l.cells[1..6] == [Some(who.id), Some(who.name), who.circuit, who.use, Some("minute")]
    ensures m.online ==> l.cells[6..] == [m.voltage, m.current, m.power, None, m.energy, Some("yes"), m.note]
    ensures !m.online ==>
      && (forall i | 6 <= i < 11 :: l.cells[i] == None)
      && l.cells[11..] == [Some("no"), Some(NOT_A_READING)]
  {
    Line(m.at, Heading(who, m.stamp, "minute") +
      if m.online then [m.voltage, m.current, m.power, None, m.energy, Some("yes"), m.note]
      else [None, None, None, None, None, Some("no"), Some(NOT_A_READING)])
  }

  function HourlyLine(who: Naming, h: Hourly): (l: Line)
    ensures l.at == h.at && |l.cells| == 13
    ensures l.cells[0] == Some(h.stamp)
      && l.cells[1..6] == [Some(who.id), Some(who.name), who.circuit, who.use, Some("hourly average")]
    ensures l.cells[6..11] == [h.voltage, h.current, h.power, h.maxPower, h.energy]
    ensures l.cells[11..] == [Some(h.coverage), h.note]
  {
    Line(h.at, Heading(who, h.stamp, "hourly average") +
      [h.voltage, h.current, h.power, h.maxPower, h.energy, Some(h.coverage), h.note])
  }

  function ByInstant(): (Line, Line) -> bool { (a: Line, b: Line) => a.at <= b.at }

  /** The minutes as they come and then the hours. */
  function UnsortedLines(who: Naming, r: Readings): (lines: seq<Line>)
    ensures |lines| == |r.raw| + |r.hourly|
    ensures forall i | 0 <= i < |r.raw| :: lines[i] == MinuteLine(who, r.raw[i])
    ensures forall i | 0 <= i < |r.hourly| :: lines[|r.raw| + i] == HourlyLine(who, r.hourly[i])
    ensures forall l | l in lines :: |l.cells| == 13
  {
    seq(|r.raw|, i requires 0 <= i < |r.raw| => MinuteLine(who, r.raw[i])) +
    seq(|r.hourly|, i requires 0 <= i < |r.hourly| => HourlyLine(who, r.hourly[i]))
  }

  function LinesOf(listed: seq<Naming>, r: Readings): seq<Line> {
    Sort(ByInstant(), UnsortedLines(NamingOf(listed, r.device), r))
  }

  function CellsOf(lines: seq<Line>): (r: seq<Cells>)
    ensures |r| == |lines| && forall i | 0 <= i < |lines| :: r[i] == lines[i].cells
  {
    seq(|lines|, i requires 0 <= i < |lines| => lines[i].cells)
  }

  /** The lines of every device, as cells. */
  function DeviceCells(listed: seq<Naming>, readings: seq<Readings>): (r: seq<seq<Cells>>)
    ensures |r| == |readings| && forall i | 0 <= i < |readings| :: r[i] == CellsOf(LinesOf(listed, readings[i]))
  {
    seq(|readings|, i requires 0 <= i < |readings| => CellsOf(LinesOf(listed, readings[i])))
  }

  method ReadingsCsvParts(header: Cells, listed: seq<Naming>, readings: seq<Readings>) returns (parts: seq<string>)
    ensures parts == PartsOf(header, DeviceCells(listed, readings))
  {
    parts := [Csv.CsvLine(header)];
    for i := 0 to |readings|
      invariant parts == PartsOf(header, DeviceCells(listed, readings[..i]))
    {
      var lines := CellsOf(LinesOf(listed, readings[i]));
      ghost var devices := DeviceCells(listed, readings[..i + 1]);
      assert devices[..i] == DeviceCells(listed, readings[..i]) && devices[i] == lines;
      if lines != [] { parts := parts + [PartOf(lines)]; }
    }
    assert readings[..|readings|] == readings;
  }

  /** A device's lines come in time order, each of its minutes and hours once. */
  lemma {:induction false} LinesTellEachReadingOnce(listed: seq<Naming>, r: Readings)
    ensures var lines := LinesOf(listed, r); forall i, j | 0 <= i < j < |lines| :: lines[i].at <= lines[j].at
    ensures multiset(LinesOf(listed, r)) == multiset(UnsortedLines(NamingOf(listed, r.device), r))
    ensures forall l | l in LinesOf(listed, r) :: |l.cells| == 13
  {
    SortSorted(ByInstant(), UnsortedLines(NamingOf(listed, r.device), r));
    SortElements(ByInstant(), UnsortedLines(NamingOf(listed, r.device), r));
  }

  function Glued(parts: seq<string>): string {
    if parts == [] then "" else Glued(parts[..|parts| - 1]) + parts[|parts| - 1]
  }

  function Rows(header: Cells, devices: seq<seq<Cells>>): (r: seq<Cells>)
    ensures r != [] && r[0] == header
  {
    if devices == [] then [header] else Rows(header, devices[..|devices| - 1]) + devices[|devices| - 1]
  }

  lemma {:induction false} JoinAppend(a: seq<string>, b: seq<string>, separator: string)
    requires a != [] && b != []
    ensures Csv.Join(a + b, separator) == Csv.Join(a, separator) + separator + Csv.Join(b, separator)
  {
    if |a| == 1 {
      assert (a + b)[1..] == b;
    } else {
      assert (a + b)[1..] == a[1..] + b;
      JoinAppend(a[1..], b, separator);
    }
  }

  lemma {:induction false} PrintedAppend(a: seq<Cells>, b: seq<Cells>)
    requires a != [] && b != []
    ensures Csv.Printed(a + b) == Csv.Printed(a) + PartOf(b)
  {
    assert Csv.CsvLines(a + b) == Csv.CsvLines(a) + Csv.CsvLines(b);
    JoinAppend(Csv.CsvLines(a), Csv.CsvLines(b), "\r\n");
  }

  /** The parts, one after the other, are the one table: the header and every device's lines. */
  lemma {:induction false} PartsAreOneTable(header: Cells, devices: seq<seq<Cells>>)
    ensures Glued(PartsOf(header, devices)) == Csv.Printed(Rows(header, devices))
  {
    if devices == [] {
      assert PartsOf(header, devices)[..0] == [];
      assert Csv.CsvLines([header]) == [Csv.CsvLine(header)];
    } else {
      var front, lines := devices[..|devices| - 1], devices[|devices| - 1];
      PartsAreOneTable(header, front);
      if lines == [] {
        assert Rows(header, front) + [] == Rows(header, front);
      } else {
        var before := PartsOf(header, front);
        assert (before + [PartOf(lines)])[..|before|] == before;
        PrintedAppend(Rows(header, front), lines);
      }
    }
  }

  lemma {:induction false} RowsAreWide(header: Cells, devices: seq<seq<Cells>>, width: nat)
    requires |header| == width && forall i, j | 0 <= i < |devices| && 0 <= j < |devices[i]| :: |devices[i][j]| == width
    ensures forall k | 0 <= k < |Rows(header, devices)| :: |Rows(header, devices)[k]| == width
  {
    if devices != [] {
      var front := devices[..|devices| - 1];
      assert forall i | 0 <= i < |front| :: front[i] == devices[i];
      RowsAreWide(header, front, width);
    }
  }

  lemma {:induction false} LinesAreWide(listed: seq<Naming>, readings: seq<Readings>, i: nat, j: nat)
    requires i < |readings| && j < |DeviceCells(listed, readings)[i]|
    ensures |DeviceCells(listed, readings)[i][j]| == 13
  {
    LinesTellEachReadingOnce(listed, readings[i]);
    assert LinesOf(listed, readings[i])[j] in LinesOf(listed, readings[i]);
  }

  /** The file reads back as the header and every line of every device, in order, cell by cell. */
  lemma {:induction false} TheFileReadsBack(header: Cells, listed: seq<Naming>, readings: seq<Readings>)
    requires |header| == 13
    ensures var devices := DeviceCells(listed, readings);
            Csv.ParseFile(Glued(PartsOf(header, devices))) == Some(Csv.AllTexts(Rows(header, devices)))
  {
    var devices := DeviceCells(listed, readings);
    forall i, j | 0 <= i < |devices| && 0 <= j < |devices[i]| ensures |devices[i][j]| == 13 {
      LinesAreWide(listed, readings, i, j);
    }
    var table := Rows(header, devices);
    PartsAreOneTable(header, devices);
    RowsAreWide(header, devices, 13);
    Csv.RoundTripExactly(table);
    assert |Csv.Texts(table[|table| - 1])| == 13;
  }
}
