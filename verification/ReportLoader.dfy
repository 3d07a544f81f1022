/**
 The primitives the Reports page loads through (`src/lib/reportLoader.ts`): a limiter that hands a
 finished task's place to the next in line, and a least-recently-used cache with expiry that joins
 requests already on their way.
 */
module ReportLoader {
  import opened Wrappers
  import opened Semaphore
  import opened OrderedMap

  /** At most `max` tasks at once. A finishing task hands its place straight on rather than freeing it. */
  class Limiter {
    const max: int
    var active: int
    var waiting: seq<nat>
    ghost var sem: Sem

    ghost predicate Valid()
      reads this
    {
      sem.cap == max && active == |sem.holders| && waiting == sem.queue && Fair(sem)
    }

    constructor (max: int)
      ensures Valid() && this.max == max && sem == Start(max)
    {
      this.max, active, waiting := max, 0, [];
      sem := Start(max);
    }

    /** Task `id` arrives: it runs at once, or waits. */
    method Enter(id: nat) returns (runs: bool)
      requires Valid() && id !in sem.asked
      modifies this
      ensures Valid() && sem == Acquire(old(sem), id)
      ensures runs <==> id in sem.holders
    {
      AcquireKeepsFair(sem, id);
      sem := Acquire(sem, id);
      if active >= max {
        waiting := waiting + [id];
        return false;
      }
      active := active + 1;
      runs := true;
    }

    /** Task `id` is over, well or badly; the next in line, if any, runs. */
    method Leave(id: nat) returns (next: Option<nat>)
      requires Valid() && id in sem.holders
      modifies this
      ensures Valid() && sem == Release(old(sem), id)
      ensures next == if old(waiting) == [] then None else Some(old(waiting)[0])
    {
      ReleaseKeepsFair(sem, id);
      HandOverCount(sem, id);
      sem := Release(sem, id);
      if |waiting| > 0 {
        next := Some(waiting[0]);
        waiting := waiting[1..];
      } else {
        next := None;
        active := active - 1;
      }
    }
  }

  /** Handing a place on leaves as many holders as before; giving it back leaves one fewer. */
  lemma {:induction false} HandOverCount(s: Sem, id: nat)
    requires Fair(s) && id in s.holders
    ensures |Release(s, id).holders| == if s.queue == [] then |s.holders| - 1 else |s.holders|
  {
    assert |s.holders - {id}| == |s.holders| - 1;
    if s.queue != [] {
      var next := s.queue[0];
      assert s.asked[|s.granted|] == next;
      assert forall i | 0 <= i < |s.granted| :: s.granted[i] == s.asked[i] && s.asked[i] != next;
      assert next !in s.holders;
    }
  }

  // ---------------------------------------------------------------- the cache as a state machine

  /** A stored answer, and when it was stored. */
  datatype Stored<T> = Stored(value: T, at: int)

  type Entry<T> = Pair<Stored<T>>

  function Evicted<T>(m: seq<Entry<T>>, max: int): seq<Entry<T>> {
    if |m| <= max || m == [] then m else if max <= 0 then [] else m[|m| - max..]
  }

  datatype LoadState<T> = Running | Loaded(value: T, at: int) | Broken
  datatype Load<T> = Load(key: string, state: LoadState<T>)

  /** The two maps of the source, and the history: every load begun, and every key hit or stored. */
  datatype Cache<T> = Cache(values: seq<Entry<T>>, inflight: map<string, nat>, loads: seq<Load<T>>,
    touches: seq<string>)

  datatype Settings = Settings(max: int, ttlMs: int)

  datatype Event<T> =
    | Get(key: string, now: int, throws: bool)
    | Settle(req: nat, outcome: Option<T>, now: int)
    | Peek(key: string, now: int)
    | Invalidate(key: string)
    | Clear

  /** What `get` answers: a stored value, the request on its way, a new one, or the error its load threw. */
  datatype Reply<T> = Served(entry: Entry<T>) | Joined(req: nat) | Started(req: nat) | Threw

  function Fresh<T>(c: Cache<T>, key: string, now: int, o: Settings): Option<Entry<T>> {
    var i := Find(c.values, key);
    if i.None? || now - c.values[i.value].value.at >= o.ttlMs then None else Some(c.values[i.value])
  }

  /** Looking a key up drops it if it has expired. */
  function Swept<T>(c: Cache<T>, key: string, now: int, o: Settings): Cache<T> {
    if Has(c.values, key) && Fresh(c, key, now, o).None? then c.(values := Delete(c.values, key)) else c
  }

  function GetReply<T>(c: Cache<T>, key: string, now: int, throws: bool, o: Settings): Reply<T> {
    var hit := Fresh(c, key, now, o);
    if hit.Some? then Served(hit.value)
    else if key in c.inflight then Joined(c.inflight[key])
    else if throws then Threw
    else Started(|c.loads|)
  }

  function GetStep<T>(c: Cache<T>, key: string, now: int, throws: bool, o: Settings): Cache<T> {
    var s := Swept(c, key, now, o);
    match GetReply(c, key, now, throws, o)
    case Served(e) => c.(values := Delete(c.values, key) + [e], touches := c.touches + [key])
    case Started(req) => s.(inflight := s.inflight[key := req], loads := s.loads + [Load(key, Running)])
    case _ => s
  }

  function SettleStep<T>(c: Cache<T>, req: nat, outcome: Option<T>, now: int, o: Settings): Cache<T>
    requires req < |c.loads|
  {
    var key := c.loads[req].key;
    if outcome.None? then c.(inflight := c.inflight - {key}, loads := c.loads[req := Load(key, Broken)])
    else c.(inflight := c.inflight - {key}, loads := c.loads[req := Load(key, Loaded(outcome.value, now))],
            values := Evicted(Put(c.values, Pair(key, Stored(outcome.value, now))), o.max),
              touches := c.touches + [key])
  }

  predicate Enabled<T>(c: Cache<T>, e: Event<T>) {
    e.Settle? ==> e.req < |c.loads| && c.loads[e.req].state.Running?
  }

  function Forgotten<T>(c: Cache<T>, key: string): Cache<T> {
    c.(values := Delete(c.values, key), inflight := c.inflight - {key})
  }

  function Cleared<T>(c: Cache<T>): Cache<T> { c.(values := [], inflight := map[]) }

  function Step<T>(c: Cache<T>, e: Event<T>, o: Settings): Cache<T>
    requires Enabled(c, e)
  {
    match e
    case Get(key, now, throws) => GetStep(c, key, now, throws, o)
    case Settle(req, outcome, now) => SettleStep(c, req, outcome, now, o)
    case Peek(key, now) => Swept(c, key, now, o)
    case Invalidate(key) => Forgotten(c, key)
    case Clear => Cleared(c)
  }

  function Empty<T>(): Cache<T> { Cache([], map[], [], []) }

  ghost predicate Runs<T>(c: Cache<T>, es: seq<Event<T>>, o: Settings)
    decreases |es|
  {
    es == [] || (Enabled(c, es[0]) && Runs(Step(c, es[0], o), es[1..], o))
  }

  ghost function End<T>(c: Cache<T>, es: seq<Event<T>>, o: Settings): Cache<T>
    requires Runs(c, es, o)
    decreases |es|
  {
    if es == [] then c else End(Step(c, es[0], o), es[1..], o)
  }

  // ---------------------------------------------------------------- what every run keeps

  /** A stored value came from a completed load of its own key, and carries the instant that load completed. */
  ghost predicate FromALoad<T>(loads: seq<Load<T>>, e: Entry<T>) {
    exists r :: 0 <= r < |loads| && loads[r] == Load(e.key, Loaded(e.value.value, e.value.at))
  }

  ghost predicate Sound<T>(c: Cache<T>, o: Settings) {
    && DistinctKeys(c.values)
    && |c.values| <= (if o.max < 0 then 0 else o.max)
    && (forall i | 0 <= i < |c.values| :: c.values[i].key !in c.inflight)
    && (forall k | k in c.inflight :: c.inflight[k] < |c.loads| && c.loads[c.inflight[k]] == Load(k, Running))
    && (forall i | 0 <= i < |c.values| :: FromALoad(c.loads, c.values[i]))
  }

  /** Nothing was forgotten on the way: each unfinished load is the one its key's callers join. */
  ghost predicate OneLoadPerKey<T>(c: Cache<T>) {
    forall r | 0 <= r < |c.loads| && c.loads[r].state.Running? ::
      c.loads[r].key in c.inflight && c.inflight[c.loads[r].key] == r
  }

  /** When a key was last hit or stored; before everything if never. */
  ghost function LastTouch(touches: seq<string>, key: string): int {
    if touches == [] then -1
    else if touches[|touches| - 1] == key then |touches| - 1
    else LastTouch(touches[..|touches| - 1], key)
  }

  /** The stored keys, in map order, are in order of last hit or store. */
  ghost predicate InUseOrder<T>(m: seq<Entry<T>>, touches: seq<string>) {
    && (forall i | 0 <= i < |m| :: 0 <= LastTouch(touches, m[i].key))
    && (forall i, j | 0 <= i < j < |m| :: LastTouch(touches, m[i].key) < LastTouch(touches, m[j].key))
  }

  lemma {:induction false} TouchAgain(touches: seq<string>, key: string)
    ensures forall k :: LastTouch(touches + [key], k) == if k == key then |touches| else LastTouch(touches, k)
  {
    assert (touches + [key])[..|touches|] == touches;
  }

  lemma {:induction false} LastTouchBounded(touches: seq<string>, key: string)
    ensures -1 <= LastTouch(touches, key) < |touches|
  {
    if touches != [] { LastTouchBounded(touches[..|touches| - 1], key); }
  }

  lemma {:induction false} DeleteInUseOrder<T>(m: seq<Entry<T>>, touches: seq<string>, key: string)
    requires InUseOrder(m, touches)
    ensures InUseOrder(Delete(m, key), touches)
  {
    var d := Delete(m, key);
    var f := Find(m, key);
    if f.Some? {
      var n := f.value;
      assert forall i | 0 <= i < |d| :: d[i] == if i < n then m[i] else m[i + 1];
    }
  }

  lemma {:induction false} SweptSound<T>(c: Cache<T>, key: string, now: int, o: Settings)
    requires Sound(c, o)
    ensures Sound(Swept(c, key, now, o), o)
    ensures Fresh(c, key, now, o).None? ==> !Has(Swept(c, key, now, o).values, key)
  {
    DeleteKeeps(c.values, key);
  }

  lemma {:induction false} MoreLoads<T>(c: Cache<T>, load: Load<T>)
    ensures forall e | FromALoad(c.loads, e) :: FromALoad(c.loads + [load], e)
  {
    var more := c.loads + [load];
    forall e | FromALoad(c.loads, e) ensures FromALoad(more, e) {
      var r :| 0 <= r < |c.loads| && c.loads[r] == Load(e.key, Loaded(e.value.value, e.value.at));
      assert more[r] == c.loads[r];
    }
  }

  lemma {:induction false} ServedSound<T>(c: Cache<T>, key: string, now: int, o: Settings)
    requires Sound(c, o) && Fresh(c, key, now, o).Some?
    ensures Sound(c.(values := Delete(c.values, key) + [Fresh(c, key, now, o).value], touches := c.touches + [key]), o)
  {
    var e := Fresh(c, key, now, o).value;
    DeleteKeeps(c.values, key);
    assert Has(c.values, key) && e in c.values && e.key == key;
  }

  lemma {:induction false} StartedSound<T>(s: Cache<T>, key: string, o: Settings)
    requires Sound(s, o) && !Has(s.values, key)
    ensures Sound(s.(inflight := s.inflight[key := |s.loads|], loads := s.loads + [Load(key, Running)]), o)
  {
    MoreLoads(s, Load(key, Running));
  }

  lemma {:induction false} GetSound<T>(c: Cache<T>, key: string, now: int, throws: bool, o: Settings)
    requires Sound(c, o)
    ensures Sound(GetStep(c, key, now, throws, o), o)
  {
    var s, t := Swept(c, key, now, o), GetStep(c, key, now, throws, o);
    if Fresh(c, key, now, o).Some? {
      ServedSound(c, key, now, o);
    } else {
      SweptSound(c, key, now, o);
      if key in c.inflight || throws {
        assert t == s;
      } else {
        StartedSound(s, key, o);
        assert t == s.(inflight := s.inflight[key := |s.loads|], loads := s.loads + [Load(key, Running)]);
      }
    }
  }

  lemma {:induction false} EvictedKeeps<T>(m: seq<Entry<T>>, max: int)
    requires DistinctKeys(m)
    ensures DistinctKeys(Evicted(m, max)) && |Evicted(m, max)| <= (if max < 0 then 0 else max)
    ensures forall i | 0 <= i < |Evicted(m, max)| :: Evicted(m, max)[i] in m
  {}

  /** A load finishing changes no other record of a finished load. */
  lemma {:induction false} FinishedLoads<T>(loads: seq<Load<T>>, req: nat, after: Load<T>)
    requires req < |loads| && loads[req].state.Running?
    ensures forall e | FromALoad(loads, e) :: FromALoad(loads[req := after], e)
  {
    forall e | FromALoad(loads, e) ensures FromALoad(loads[req := after], e) {
      var r :| 0 <= r < |loads| && loads[r] == Load(e.key, Loaded(e.value.value, e.value.at));
      assert loads[req := after][r] == loads[r];
    }
  }

  lemma {:induction false} StoredSound<T>(c: Cache<T>, req: nat, value: T, now: int, o: Settings)
    requires Sound(c, o) && req < |c.loads| && c.loads[req].state.Running?
    ensures Sound(SettleStep(c, req, Some(value), now, o), o)
  {
    var key := c.loads[req].key;
    var e := Pair(key, Stored(value, now));
    var t := SettleStep(c, req, Some(value), now, o);
    FinishedLoads(c.loads, req, Load(key, Loaded(value, now)));
    PutKeeps(c.values, e);
    EvictedKeeps(Put(c.values, e), o.max);
    assert t.loads[req] == Load(key, Loaded(value, now));
    forall i | 0 <= i < |t.values| ensures FromALoad(t.loads, t.values[i]) && t.values[i].key !in t.inflight {
      assert t.values[i] in Put(c.values, e);
      assert t.values[i] == e || t.values[i] in c.values;
    }
  }

  lemma {:induction false} FailedSound<T>(c: Cache<T>, req: nat, now: int, o: Settings)
    requires Sound(c, o) && req < |c.loads| && c.loads[req].state.Running?
    ensures Sound(SettleStep(c, req, None, now, o), o)
  {
    FinishedLoads(c.loads, req, Load(c.loads[req].key, Broken));
  }

  lemma {:induction false} StepSound<T>(c: Cache<T>, e: Event<T>, o: Settings)
    requires Sound(c, o) && Enabled(c, e)
    ensures Sound(Step(c, e, o), o)
  {
    match e
    case Get(key, now, throws) => GetSound(c, key, now, throws, o);
    case Settle(req, outcome, now) =>
      if outcome.None? { FailedSound(c, req, now, o); } else { StoredSound(c, req, outcome.value, now, o); }
    case Peek(key, now) => SweptSound(c, key, now, o);
    case Invalidate(key) => DeleteKeeps(c.values, key);
    case Clear =>
  }

  /**
   In every run, invalidations included, the store is bounded, apart
   from the requests in flight, and holds only what loads returned.
   */
  lemma {:induction false} EveryRunIsSound<T>(c: Cache<T>, es: seq<Event<T>>, o: Settings)
    requires Sound(c, o) && Runs(c, es, o)
    ensures Sound(End(c, es, o), o)
    decreases |es|
  {
    if es != [] {
      StepSound(c, es[0], o);
      EveryRunIsSound(Step(c, es[0], o), es[1..], o);
    }
  }

  // ---------------------------------------------------------------- runs that forget nothing

  ghost predicate NothingForgotten<T>(es: seq<Event<T>>) {
    forall i | 0 <= i < |es| :: !es[i].Invalidate? && !es[i].Clear?
  }

  /** At most one load per key is unfinished, and eviction order is use order. */
  ghost predicate Orderly<T>(c: Cache<T>, o: Settings) {
    Sound(c, o) && OneLoadPerKey(c) && InUseOrder(c.values, c.touches)
  }

  lemma {:induction false} GetOrderly<T>(c: Cache<T>, key: string, now: int, throws: bool, o: Settings)
    requires Orderly(c, o)
    ensures Orderly(GetStep(c, key, now, throws, o), o)
  {
    GetSound(c, key, now, throws, o);
    DeleteInUseOrder(c.values, c.touches, key);
    if GetReply(c, key, now, throws, o).Served? {
      HitInUseOrder(c.values, c.touches, GetReply(c, key, now, throws, o).entry);
    }
  }

  lemma {:induction false} HitInUseOrder<T>(m: seq<Entry<T>>, touches: seq<string>, e: Entry<T>)
    requires DistinctKeys(m) && InUseOrder(m, touches) && Has(m, e.key)
    ensures InUseOrder(Delete(m, e.key) + [e], touches + [e.key])
  {
    DeleteInUseOrder(m, touches, e.key);
    DeleteKeeps(m, e.key);
    AppendInUseOrder(Delete(m, e.key), touches, e);
  }

  lemma {:induction false} AppendInUseOrder<T>(m: seq<Entry<T>>, touches: seq<string>, e: Entry<T>)
    requires InUseOrder(m, touches) && forall i | 0 <= i < |m| :: m[i].key != e.key
    ensures InUseOrder(m + [e], touches + [e.key])
  {
    TouchAgain(touches, e.key);
    forall i | 0 <= i < |m| ensures LastTouch(touches, m[i].key) < |touches| {
      LastTouchBounded(touches, m[i].key);
    }
  }

  lemma {:induction false} SettleOrderly<T>(c: Cache<T>, req: nat, outcome: Option<T>, now: int, o: Settings)
    requires Orderly(c, o) && req < |c.loads| && c.loads[req].state.Running?
    ensures Orderly(SettleStep(c, req, outcome, now, o), o)
  {
    var key := c.loads[req].key;
    StepSound(c, Settle(req, outcome, now), o);
    if outcome.Some? {
      AppendInUseOrder(c.values, c.touches, Pair(key, Stored(outcome.value, now)));
    }
  }

  lemma {:induction false} RunsAreOrderly<T>(c: Cache<T>, es: seq<Event<T>>, o: Settings)
    requires Orderly(c, o) && Runs(c, es, o) && NothingForgotten(es)
    ensures Orderly(End(c, es, o), o)
    decreases |es|
  {
    if es != [] {
      match es[0] {
        case Get(key, now, throws) => GetOrderly(c, key, now, throws, o);
        case Settle(req, outcome, now) => SettleOrderly(c, req, outcome, now, o);
        case Peek(key, now) =>
          SweptSound(c, key, now, o);
          DeleteInUseOrder(c.values, c.touches, key);
      }
      assert forall i | 0 <= i < |es[1..]| :: es[1..][i] == es[i + 1];
      RunsAreOrderly(Step(c, es[0], o), es[1..], o);
    }
  }

  /** From an empty cache, a run without `invalidate` or `clear` is orderly. */
  lemma {:induction false} RunsFromEmptyAreOrderly<T>(es: seq<Event<T>>, o: Settings)
    requires Runs(Empty<T>(), es, o) && NothingForgotten(es)
    ensures Orderly(End(Empty<T>(), es, o), o)
  {
    RunsAreOrderly(Empty<T>(), es, o);
  }

  /**
   What `get` serves from the store is fresh and what some load
   of that key returned; what it joins is a load of that key.
   */
  lemma {:induction false} WhatGetServes<T>(c: Cache<T>, key: string, now: int, throws: bool, o: Settings)
    requires Sound(c, o)
    ensures match GetReply(c, key, now, throws, o)
            case Served(e) => e.key == key && now - e.value.at < o.ttlMs && FromALoad(c.loads, e)
            case Joined(req) => req < |c.loads| && c.loads[req] == Load(key, Running)
            case Started(req) => forall r | 0 <= r < |c.loads| && OneLoadPerKey(c) && c.loads[r].state.Running? ::
              c.loads[r].key != key
            case Threw => GetStep(c, key, now, throws, o).inflight == c.inflight
  {}

  /** A failed load leaves nothing stored and nothing to join. */
  lemma {:induction false} FailureIsNotRemembered<T>(c: Cache<T>, req: nat, now: int, o: Settings)
    requires Orderly(c, o) && req < |c.loads| && c.loads[req].state.Running?
    ensures var t := SettleStep(c, req, None, now, o);
            !Has(t.values, c.loads[req].key) && c.loads[req].key !in t.inflight && t.values == c.values
  {}

  /** Storing drops at most the entry used longest ago, and only to stay within `max`. */
  lemma {:induction false} EvictsLeastRecentlyUsed<T>(c: Cache<T>, req: nat, value: T, now: int, o: Settings)
    requires Orderly(c, o) && req < |c.loads| && c.loads[req].state.Running? && o.max >= 1
    ensures var t := SettleStep(c, req, Some(value), now, o);
            && t.values[|t.values| - 1] == Pair(c.loads[req].key, Stored(value, now))
            && (|c.values| < o.max ==> t.values == c.values + [Pair(c.loads[req].key, Stored(value, now))])
            && forall i, j | 0 <= i < |c.values| && 0 <= j < |t.values| && !Has(t.values, c.values[i].key) ::
                 i == 0 && LastTouch(t.touches, c.values[i].key) < LastTouch(t.touches, t.values[j].key)
  {
    var key := c.loads[req].key;
    var e := Pair(key, Stored(value, now));
    var t := SettleStep(c, req, Some(value), now, o);
    AppendInUseOrder(c.values, c.touches, e);
    var all := c.values + [e];
    var cut := if |all| <= o.max then 0 else 1;
    assert t.values == all[cut..];
    forall i | cut <= i < |c.values| ensures Has(t.values, c.values[i].key) {
      assert all[cut..][i - cut] == c.values[i];
    }
    forall i, j | 0 <= i < |c.values| && 0 <= j < |t.values| && !Has(t.values, c.values[i].key)
      ensures i == 0 && LastTouch(t.touches, c.values[i].key) < LastTouch(t.touches, t.values[j].key)
    {
      assert all[cut..][j] == all[j + cut];
    }
  }

  /** `invalidate` does not stop a load on its way: when it completes, its value is stored all the same. */
  lemma {:induction false} InvalidatedLoadStillStores<T>(c: Cache<T>, req: nat, value: T, now: int, o: Settings)
    requires Sound(c, o) && req < |c.loads| && c.loads[req].state.Running?
    ensures var key := c.loads[req].key;
            var forgotten := Step(c, Invalidate(key), o);
            Enabled(forgotten, Settle(req, Some(value), now)) &&
            (Pair(key, Stored(value, now)) in Step(forgotten, Settle(req, Some(value), now), o).values <==> o.max >= 1)
  {
    var key := c.loads[req].key;
    DeleteKeeps(c.values, key);
    var m := Delete(c.values, key);
    var e := Pair(key, Stored(value, now));
    assert Find(m, key).None?;
    var all := m + [e];
    if o.max >= 1 {
      var v := Evicted(all, o.max);
      assert v[|v| - 1] == e;
    }
  }

  // ---------------------------------------------------------------- what every event does

  /** The entries under other keys, in their order. */
  function Others<T>(m: seq<Entry<T>>, key: string): seq<Entry<T>> {
    if m == [] then []
    else Others(m[..|m| - 1], key) + (if m[|m| - 1].key == key then [] else [m[|m| - 1]])
  }

  lemma {:induction false} OthersAreAll<T>(m: seq<Entry<T>>, key: string)
    requires forall i | 0 <= i < |m| :: m[i].key != key
    ensures Others(m, key) == m
  {
    if m != [] {
      OthersAreAll(m[..|m| - 1], key);
      assert m == m[..|m| - 1] + [m[|m| - 1]];
    }
  }

  lemma {:induction false} OthersAppend<T>(a: seq<Entry<T>>, b: seq<Entry<T>>, key: string)
    ensures Others(a + b, key) == Others(a, key) + Others(b, key)
  {
    if b == [] {
      assert a + b == a;
    } else {
      assert (a + b)[..|a + b| - 1] == a + b[..|b| - 1];
      OthersAppend(a, b[..|b| - 1], key);
    }
  }

  lemma {:induction false} DeletedLeavesOthers<T>(m: seq<Entry<T>>, key: string)
    requires DistinctKeys(m)
    ensures Delete(m, key) == Others(m, key)
  {
    var f := Find(m, key);
    if f.None? {
      OthersAreAll(m, key);
    } else {
      var a, b := m[..f.value], m[f.value + 1..];
      assert m == a + [m[f.value]] + b;
      OthersAround(a, m[f.value], b);
    }
  }

  lemma {:induction false} OthersAround<T>(a: seq<Entry<T>>, e: Entry<T>, b: seq<Entry<T>>)
    requires forall i | 0 <= i < |a| :: a[i].key != e.key
    requires forall i | 0 <= i < |b| :: b[i].key != e.key
    ensures Others(a + [e] + b, e.key) == a + b
  {
    OthersAreAll(a, e.key);
    OthersAreAll(b, e.key);
    OthersAppend(a + [e], b, e.key);
    OthersAppend(a, [e], e.key);
    assert [e][..0] == [];
    assert a + [] == a;
  }

  /** No value of the key is younger than the limit. */
  ghost predicate NoneYoung<T>(m: seq<Entry<T>>, key: string, now: int, ttlMs: int) {
    forall e | e in m && e.key == key :: now - e.value.at >= ttlMs
  }

  /**
   A value younger than the limit is what `get` answers: it moves to the end, nothing is loaded, and nothing else
   changes. `peek` changes nothing.
   */
  lemma {:induction false} YoungIsServed<T>(c: Cache<T>, e: Entry<T>, now: int, throws: bool, o: Settings)
    requires Sound(c, o) && e in c.values && now - e.value.at < o.ttlMs
    ensures GetReply(c, e.key, now, throws, o) == Served(e)
    ensures Step(c, Get(e.key, now, throws), o) ==
            c.(values := Others(c.values, e.key) + [e], touches := c.touches + [e.key])
    ensures Step(c, Peek(e.key, now), o) == c
  {
    var i :| 0 <= i < |c.values| && c.values[i] == e;
    FindAt(c.values, i);
    DeletedLeavesOthers(c.values, e.key);
  }

  /**
   Without one, `get` joins the request on its way, or begins
   one; what was stored under the key goes, and nothing else.
   */
  lemma {:induction false} TheOldIsLoadedAnew<T>(c: Cache<T>, key: string, now: int, throws: bool, o: Settings)
    requires Sound(c, o) && NoneYoung(c.values, key, now, o.ttlMs)
    ensures var left := c.(values := Others(c.values, key));
            && Step(c, Peek(key, now), o) == left
            && (if key in c.inflight
                then GetReply(c, key, now, throws, o) == Joined(c.inflight[key])
                  && Step(c, Get(key, now, throws), o) == left
                else if throws
                then GetReply(c, key, now, throws, o) == Threw && Step(c, Get(key, now, throws), o) == left
                else
                  && GetReply(c, key, now, throws, o) == Started(|c.loads|)
                  && Step(c, Get(key, now, throws), o) ==
                     left.(inflight := c.inflight[key := |c.loads|], loads := c.loads + [Load(key, Running)]))
  {
    var i := Find(c.values, key);
    if i.Some? {
      assert c.values[i.value] in c.values;
    }
    DeletedLeavesOthers(c.values, key);
  }

  /** The entries once `e` is stored: in the place of its key, or last if the key is new. */
  ghost function Holding<T>(m: seq<Entry<T>>, e: Entry<T>): seq<Entry<T>> {
    if exists x :: x in m && x.key == e.key
    then seq(|m|, i requires 0 <= i < |m| => if m[i].key == e.key then e else m[i])
    else m + [e]
  }

  lemma {:induction false} PutHolds<T>(m: seq<Entry<T>>, e: Entry<T>)
    requires DistinctKeys(m)
    ensures Put(m, e) == Holding(m, e)
  {
    var f := Find(m, e.key);
    if f.Some? {
      assert m[f.value] in m;
      forall i | 0 <= i < |m| ensures Put(m, e)[i] == Holding(m, e)[i] {
        assert i != f.value ==> m[i].key != e.key;
      }
    } else {
      forall x | x in m ensures x.key != e.key {
        var i :| 0 <= i < |m| && m[i] == x;
      }
    }
  }

  /**
   A load that ends is no longer joined; its value is stored under its key, and only the first entries over `max` go.
   */
  lemma {:induction false} EndedLoadsAreStored<T>(c: Cache<T>, req: nat, outcome: Option<T>, now: int, o: Settings)
    requires Sound(c, o) && req < |c.loads| && c.loads[req].state.Running?
    ensures var t, key := Step(c, Settle(req, outcome, now), o), c.loads[req].key;
            && t.inflight == (map k | k in c.inflight && k != key :: c.inflight[k])
            && if outcome.None? then t.values == c.values && t.loads == c.loads[req := Load(key, Broken)]
               else
                 var all := Holding(c.values, Pair(key, Stored(outcome.value, now)));
                 && t.loads == c.loads[req := Load(key, Loaded(outcome.value, now))]
                 && |t.values| == (if o.max < 0 then 0 else if |all| < o.max then |all| else o.max)
                 && t.values == all[|all| - |t.values|..]
  {
    var key := c.loads[req].key;
    OneKeyLess(c.inflight, key);
    if outcome.Some? {
      var e := Pair(key, Stored(outcome.value, now));
      PutHolds(c.values, e);
      EvictedIsTheEnd(Holding(c.values, e), o.max);
    }
  }

  lemma {:induction false} EvictedIsTheEnd<T>(m: seq<Entry<T>>, max: int)
    ensures |Evicted(m, max)| == if max < 0 then 0 else if |m| < max then |m| else max
    ensures Evicted(m, max) == m[|m| - |Evicted(m, max)|..]
  {}

  /** `invalidate` forgets the value and the request of its key and of no other; `clear` forgets all of both. */
  lemma {:induction false} ForgettingTakesNoMore<T>(c: Cache<T>, key: string, o: Settings)
    requires Sound(c, o)
    ensures Step(c, Invalidate(key), o) ==
            c.(values := Others(c.values, key), inflight := map k | k in c.inflight && k != key :: c.inflight[k])
    ensures Step(c, Clear, o) == c.(values := [], inflight := map[])
  {
    DeletedLeavesOthers(c.values, key);
    OneKeyLess(c.inflight, key);
  }

  lemma {:induction false} OneKeyLess(m: map<string, nat>, key: string)
    ensures m - {key} == map k | k in m && k != key :: m[k]
  {}

  lemma {:induction false} OthersMembers<T>(m: seq<Entry<T>>, key: string)
    ensures forall e :: e in Others(m, key) <==> e in m && e.key != key
    ensures |Others(m, key)| <= |m|
  {
    if m != [] {
      OthersMembers(m[..|m| - 1], key);
      assert m == m[..|m| - 1] + [m[|m| - 1]];
    }
  }

  /** How many loads end with a value. */
  ghost function Arrivals<T>(es: seq<Event<T>>): nat {
    if es == [] then 0 else (if es[0].Settle? && es[0].outcome.Some? then 1 else 0) + Arrivals(es[1..])
  }

  /** Nobody asks for the key when its value is old, or has it forgotten. */
  ghost predicate LeavesYoung<T>(es: seq<Event<T>>, e: Entry<T>, ttlMs: int) {
    forall v | v in es ::
      && v != Invalidate(e.key) && v != Clear
      && (v.Get? && v.key == e.key ==> v.now - e.value.at < ttlMs)
      && (v.Peek? && v.key == e.key ==> v.now - e.value.at < ttlMs)
  }

  /** The entry is stored, there is room for `arrivals` more, and no load of its key is on its way. */
  ghost predicate Safely<T>(c: Cache<T>, e: Entry<T>, arrivals: nat, o: Settings) {
    e in c.values && |c.values| + arrivals <= o.max && !LoadRunning(c, e.key, |c.loads|)
  }

  lemma {:induction false} GetKeepsSafely<T>(c: Cache<T>, e: Entry<T>, n: nat, key: string, now: int, throws: bool,
        o: Settings)
    requires Sound(c, o) && Safely(c, e, n, o) && (key == e.key ==> now - e.value.at < o.ttlMs)
    ensures Safely(Step(c, Get(key, now, throws), o), e, n, o)
  {
    if young :| young in c.values && young.key == key && now - young.value.at < o.ttlMs {
      ServingKeepsSafely(c, e, n, young, now, throws, o);
    } else {
      LoadingKeepsSafely(c, e, n, key, now, throws, o);
    }
  }

  lemma {:induction false} ServingKeepsSafely<T>(c: Cache<T>, e: Entry<T>, n: nat, young: Entry<T>, now: int,
        throws: bool, o: Settings)
    requires Sound(c, o) && Safely(c, e, n, o) && young in c.values && now - young.value.at < o.ttlMs
    ensures Safely(Step(c, Get(young.key, now, throws), o), e, n, o)
  {
    YoungIsServed(c, young, now, throws, o);
    DeletedLeavesOthers(c.values, young.key);
    DeleteKeeps(c.values, young.key);
    var i :| 0 <= i < |c.values| && c.values[i] == young;
    FindAt(c.values, i);
    if young.key == e.key { SameKeySameEntry(c.values, young, e); }
  }

  lemma {:induction false} LoadingKeepsSafely<T>(c: Cache<T>, e: Entry<T>, n: nat, key: string, now: int, throws: bool,
        o: Settings)
    requires Sound(c, o) && Safely(c, e, n, o) && key != e.key && NoneYoung(c.values, key, now, o.ttlMs)
    ensures Safely(Step(c, Get(key, now, throws), o), e, n, o)
  {
    var t := Step(c, Get(key, now, throws), o);
    TheOldIsLoadedAnew(c, key, now, throws, o);
    OthersMembers(c.values, key);
    NoneStarts(c, t, e.key);
  }

  lemma {:induction false} SameKeySameEntry<T>(m: seq<Entry<T>>, a: Entry<T>, b: Entry<T>)
    requires DistinctKeys(m) && a in m && b in m && a.key == b.key
    ensures a == b
  {
    var i :| 0 <= i < |m| && m[i] == a;
    var j :| 0 <= j < |m| && m[j] == b;
  }

  lemma {:induction false} NoneStarts<T>(c: Cache<T>, t: Cache<T>, key: string)
    requires !LoadRunning(c, key, |c.loads|)
    requires t.loads == c.loads || exists k :: k != key && t.loads == c.loads + [Load(k, Running)]
    ensures !LoadRunning(t, key, |t.loads|)
  {
    assert forall r | 0 <= r < |c.loads| :: t.loads[r] == c.loads[r];
  }

  lemma {:induction false} SettleKeepsSafely<T>(c: Cache<T>, e: Entry<T>, n: nat, req: nat, outcome: Option<T>,
        now: int,
                                                o: Settings)
    requires Sound(c, o) && req < |c.loads| && c.loads[req].state.Running?
    requires Safely(c, e, n + (if outcome.Some? then 1 else 0), o)
    ensures Safely(Step(c, Settle(req, outcome, now), o), e, n, o)
  {
    var t := Step(c, Settle(req, outcome, now), o);
    EndedLoadsAreStored(c, req, outcome, now, o);
    assert c.loads[req].key != e.key;
    assert forall r | 0 <= r < |c.loads| && r != req :: t.loads[r] == c.loads[r];
    if outcome.Some? {
      var all := Holding(c.values, Pair(c.loads[req].key, Stored(outcome.value, now)));
      var i :| 0 <= i < |c.values| && c.values[i] == e;
      assert all[i] == e;
      assert t.values == all;
    }
  }

  lemma {:induction false} StepKeepsSafely<T>(c: Cache<T>, e: Entry<T>, v: Event<T>, n: nat, o: Settings)
    requires Sound(c, o) && Enabled(c, v) && LeavesYoung([v], e, o.ttlMs)
    requires Safely(c, e, n + (if v.Settle? && v.outcome.Some? then 1 else 0), o)
    ensures Safely(Step(c, v, o), e, n, o)
  {
    assert v in [v];
    match v
    case Get(key, now, throws) => GetKeepsSafely(c, e, n, key, now, throws, o);
    case Settle(req, outcome, now) => SettleKeepsSafely(c, e, n, req, outcome, now, o);
    case Peek(key, now) =>
      if key == e.key { YoungIsServed(c, e, now, false, o); } else { PeekKeeps(c, e, key, now, o); }
    case Invalidate(key) =>
      ForgettingTakesNoMore(c, key, o);
      OthersMembers(c.values, key);
    case Clear =>
  }

  lemma {:induction false} PeekKeeps<T>(c: Cache<T>, e: Entry<T>, key: string, now: int, o: Settings)
    requires Sound(c, o) && e in c.values && key != e.key
    ensures var t := Step(c, Peek(key, now), o);
      t == c.(values := t.values) && e in t.values && |t.values| <= |c.values|
  {
    DeletedLeavesOthers(c.values, key);
    OthersMembers(c.values, key);
  }

  /**
   Over any run that leaves room, a value is served from the store for as long as it is young: whatever else is
   asked, loaded, stored or forgotten, no `get` of its key begins a load.
   */
  lemma {:induction false} ServedWhileYoung<T>(c: Cache<T>, es: seq<Event<T>>, e: Entry<T>, now: int, throws: bool,
        o: Settings)
    requires Sound(c, o) && Runs(c, es, o) && Safely(c, e, Arrivals(es), o)
    requires LeavesYoung(es, e, o.ttlMs) && now - e.value.at < o.ttlMs
    ensures GetReply(End(c, es, o), e.key, now, throws, o) == Served(e)
    decreases |es|
  {
    if es == [] {
      YoungIsServed(c, e, now, throws, o);
    } else {
      assert es[0] in es;
      assert forall v | v in es[1..] :: v in es;
      StepSound(c, es[0], o);
      StepKeepsSafely(c, e, es[0], Arrivals(es[1..]), o);
      ServedWhileYoung(Step(c, es[0], o), es[1..], e, now, throws, o);
    }
  }

  // ---------------------------------------------------------------- what invalidating promises

  /** The stored value of an entry is what a load begun as the `n`th or later returned. */
  ghost predicate FromALaterLoad<T>(loads: seq<Load<T>>, n: nat, e: Entry<T>) {
    exists r :: n <= r < |loads| && loads[r] == Load(e.key, Loaded(e.value.value, e.value.at))
  }

  /** Nothing older than the `n`th load is stored under `key`. */
  ghost predicate OnlyLater<T>(c: Cache<T>, key: string, n: nat) {
    forall i | 0 <= i < |c.values| && c.values[i].key == key :: FromALaterLoad(c.loads, n, c.values[i])
  }

  ghost predicate LoadRunning<T>(c: Cache<T>, key: string, below: nat) {
    exists r :: 0 <= r < below && r < |c.loads| && c.loads[r].key == key && c.loads[r].state.Running?
  }

  /** Nothing older is stored, and nothing older is on its way. */
  ghost predicate Since<T>(c: Cache<T>, key: string, n: nat) {
    n <= |c.loads| && OnlyLater(c, key, n) && !LoadRunning(c, key, n)
  }

  lemma {:induction false} FewerSince<T>(c: Cache<T>, t: Cache<T>, key: string, n: nat)
    requires Since(c, key, n) && t.loads == c.loads && forall i | 0 <= i < |t.values| :: t.values[i] in c.values
    ensures Since(t, key, n)
  {
    forall i | 0 <= i < |t.values| && t.values[i].key == key ensures FromALaterLoad(t.loads, n, t.values[i]) {
      var j :| 0 <= j < |c.values| && c.values[j] == t.values[i];
      assert FromALaterLoad(c.loads, n, c.values[j]);
    }
  }

  lemma {:induction false} StartedSince<T>(c: Cache<T>, key: string, n: nat, load: Load<T>)
    requires Since(c, key, n)
    ensures Since(c.(loads := c.loads + [load]), key, n)
  {
    var t := c.(loads := c.loads + [load]);
    forall i | 0 <= i < |t.values| && t.values[i].key == key ensures FromALaterLoad(t.loads, n, t.values[i]) {
      assert FromALaterLoad(c.loads, n, c.values[i]);
      var e := c.values[i];
      var r :| n <= r < |c.loads| && c.loads[r] == Load(e.key, Loaded(e.value.value, e.value.at));
      assert t.loads[r] == c.loads[r];
    }
    assert forall r | 0 <= r < n :: t.loads[r] == c.loads[r];
  }

  lemma {:induction false} GetSince<T>(c: Cache<T>, key: string, n: nat, k: string, now: int, throws: bool, o: Settings)
    requires Sound(c, o) && Since(c, key, n)
    ensures Since(GetStep(c, k, now, throws, o), key, n)
  {
    DeleteKeeps(c.values, k);
    var s, t := Swept(c, k, now, o), GetStep(c, k, now, throws, o);
    if Fresh(c, k, now, o).Some? {
      assert Fresh(c, k, now, o).value in c.values;
      FewerSince(c, t, key, n);
    } else {
      FewerSince(c, s, key, n);
      if !(k in c.inflight || throws) {
        StartedSince(s, key, n, Load(k, Running));
        assert t.loads == s.loads + [Load(k, Running)] && t.values == s.values;
      }
    }
  }

  lemma {:induction false} FinishedSince<T>(c: Cache<T>, key: string, n: nat, req: nat, after: Load<T>)
    requires Since(c, key, n) && req < |c.loads| && c.loads[req].state.Running? && !after.state.Running?
    ensures Since(c.(loads := c.loads[req := after]), key, n)
  {
    var t := c.(loads := c.loads[req := after]);
    forall i | 0 <= i < |t.values| && t.values[i].key == key ensures FromALaterLoad(t.loads, n, t.values[i]) {
      assert FromALaterLoad(c.loads, n, c.values[i]);
      var e := c.values[i];
      var r :| n <= r < |c.loads| && c.loads[r] == Load(e.key, Loaded(e.value.value, e.value.at));
      assert t.loads[r] == c.loads[r];
    }
    assert forall r | 0 <= r < n && r != req :: t.loads[r] == c.loads[r];
  }

  lemma {:induction false} StoredSince<T>(c: Cache<T>, key: string, n: nat, e: Entry<T>, max: int)
    requires DistinctKeys(c.values) && Since(c, key, n) && (e.key == key ==> FromALaterLoad(c.loads, n, e))
    ensures Since(c.(values := Evicted(Put(c.values, e), max)), key, n)
  {
    PutKeeps(c.values, e);
    var t := c.(values := Put(c.values, e));
    forall i | 0 <= i < |t.values| && t.values[i].key == key ensures FromALaterLoad(t.loads, n, t.values[i]) {
      if t.values[i] != e {
        var j :| 0 <= j < |c.values| && c.values[j] == t.values[i];
        assert FromALaterLoad(c.loads, n, c.values[j]);
      }
    }
    EvictedKeeps(t.values, max);
    FewerSince(t, c.(values := Evicted(Put(c.values, e), max)), key, n);
  }

  lemma {:induction false} SettleSince<T>(c: Cache<T>, key: string, n: nat, req: nat, outcome: Option<T>, now: int,
        o: Settings)
    requires Sound(c, o) && Since(c, key, n) && req < |c.loads| && c.loads[req].state.Running?
    ensures Since(SettleStep(c, req, outcome, now, o), key, n)
  {
    var k := c.loads[req].key;
    if outcome.None? {
      FinishedSince(c, key, n, req, Load(k, Broken));
    } else {
      var f := c.(loads := c.loads[req := Load(k, Loaded(outcome.value, now))]);
      FinishedSince(c, key, n, req, Load(k, Loaded(outcome.value, now)));
      var e := Pair(k, Stored(outcome.value, now));
      assert f.loads[req] == Load(e.key, Loaded(e.value.value, e.value.at));
      StoredSince(f, key, n, e, o.max);
    }
  }

  lemma {:induction false} StepSince<T>(c: Cache<T>, key: string, n: nat, e: Event<T>, o: Settings)
    requires Sound(c, o) && Since(c, key, n) && Enabled(c, e)
    ensures Since(Step(c, e, o), key, n)
  {
    match e
    case Get(k, now, throws) => GetSince(c, key, n, k, now, throws, o);
    case Settle(req, outcome, now) => SettleSince(c, key, n, req, outcome, now, o);
    case Peek(k, now) =>
      DeleteKeeps(c.values, k);
      FewerSince(c, Swept(c, k, now, o), key, n);
    case Invalidate(k) =>
      DeleteKeeps(c.values, k);
      FewerSince(c, Forgotten(c, k), key, n);
    case Clear => FewerSince(c, Step(c, e, o), key, n);
  }

  lemma {:induction false} RunSince<T>(c: Cache<T>, key: string, n: nat, es: seq<Event<T>>, o: Settings)
    requires Sound(c, o) && Since(c, key, n) && Runs(c, es, o)
    ensures Since(End(c, es, o), key, n)
    decreases |es|
  {
    if es != [] {
      StepSince(c, key, n, es[0], o);
      StepSound(c, es[0], o);
      RunSince(Step(c, es[0], o), key, n, es[1..], o);
    }
  }

  /** Whatever happens after it, nothing loaded before the invalidation is stored under the key again. */
  ghost predicate InvalidationHolds<T(!new)>(c: Cache<T>, key: string, o: Settings) {
    forall es | Runs(Forgotten(c, key), es, o) :: OnlyLater(End(Forgotten(c, key), es, o), key, |c.loads|)
  }

  lemma {:induction false} OlderLoadComesBack<T(!new)>(c: Cache<T>, key: string, o: Settings, req: nat, value: T)
    requires Sound(c, o) && o.max >= 1 && req < |c.loads| && c.loads[req].key == key && c.loads[req].state.Running?
    ensures !InvalidationHolds(c, key, o)
  {
    var g := Forgotten(c, key);
    var e: Event<T> := Settle(req, Some(value), 0);
    OneEvent(g, e, o);
    SettledIsOlder(c, key, o, req, value);
    assert Runs(g, [e], o) && !OnlyLater(End(g, [e], o), key, |c.loads|);
  }

  lemma {:induction false} OneEvent<T>(c: Cache<T>, e: Event<T>, o: Settings)
    requires Enabled(c, e)
    ensures Runs(c, [e], o) && End(c, [e], o) == Step(c, e, o)
  {
    assert [e][1..] == [];
    assert Runs(Step(c, e, o), [], o) && End(Step(c, e, o), [], o) == Step(c, e, o);
  }

  lemma {:induction false} SettledIsOlder<T>(c: Cache<T>, key: string, o: Settings, req: nat, value: T)
    requires Sound(c, o) && o.max >= 1 && req < |c.loads| && c.loads[req].key == key && c.loads[req].state.Running?
    ensures !OnlyLater(SettleStep(Forgotten(c, key), req, Some(value), 0, o), key, |c.loads|)
  {
    InvalidatedLoadStillStores(c, req, value, 0, o);
    var t := SettleStep(Forgotten(c, key), req, Some(value), 0, o);
    assert Pair(key, Stored(value, 0)) in t.values;
    HeldIsNotLater(t, key, Pair(key, Stored(value, 0)), |c.loads|);
  }

  lemma {:induction false} HeldIsNotLater<T>(t: Cache<T>, key: string, e: Entry<T>, n: nat)
    requires e in t.values && e.key == key && |t.loads| <= n
    ensures !OnlyLater(t, key, n)
  {
    var i :| 0 <= i < |t.values| && t.values[i] == e;
    assert !FromALaterLoad(t.loads, n, t.values[i]);
  }

  lemma {:induction false} NothingKept<T>(c: Cache<T>, key: string, es: seq<Event<T>>, o: Settings)
    requires Sound(c, o) && o.max < 1 && Runs(Forgotten(c, key), es, o)
    ensures OnlyLater(End(Forgotten(c, key), es, o), key, |c.loads|)
  {
    StepSound(c, Invalidate(key), o);
    EveryRunIsSound(Forgotten(c, key), es, o);
  }

  /**
   Forgetting a key keeps older answers out in every run to come if and only if no load of the key is running
   at that moment, or the cache can hold nothing. (`some` is any value a load might return.)
   */
  lemma {:induction false} InvalidationHoldsExactly<T(!new)>(c: Cache<T>, key: string, o: Settings, some: T)
    requires Sound(c, o)
    ensures InvalidationHolds(c, key, o) <==> !LoadRunning(c, key, |c.loads|) || o.max < 1
  {
    if o.max < 1 {
      forall es | Runs(Forgotten(c, key), es, o) ensures OnlyLater(End(Forgotten(c, key), es, o), key, |c.loads|) {
        NothingKept(c, key, es, o);
      }
    } else if LoadRunning(c, key, |c.loads|) {
      var r :| 0 <= r < |c.loads| && c.loads[r].key == key && c.loads[r].state.Running?;
      OlderLoadComesBack(c, key, o, r, some);
    } else {
      DeleteKeeps(c.values, key);
      StepSound(c, Invalidate(key), o);
      assert Since(Forgotten(c, key), key, |c.loads|);
      forall es | Runs(Forgotten(c, key), es, o) ensures OnlyLater(End(Forgotten(c, key), es, o), key, |c.loads|) {
        RunSince(Forgotten(c, key), key, |c.loads|, es, o);
      }
    }
  }

  /** No request older than the `n`th is on its way for a caller of `key` to join. */
  ghost predicate JoinsOnlyLater<T>(c: Cache<T>, key: string, n: nat) {
    n <= |c.loads| && (key in c.inflight ==> n <= c.inflight[key])
  }

  lemma {:induction false} RunJoinsOnlyLater<T>(c: Cache<T>, key: string, n: nat, es: seq<Event<T>>, o: Settings)
    requires JoinsOnlyLater(c, key, n) && Runs(c, es, o)
    ensures JoinsOnlyLater(End(c, es, o), key, n)
    decreases |es|
  {
    if es != [] {
      StepJoinsOnlyLater(c, key, n, es[0], o);
      RunJoinsOnlyLater(Step(c, es[0], o), key, n, es[1..], o);
    }
  }

  lemma {:induction false} StepJoinsOnlyLater<T>(c: Cache<T>, key: string, n: nat, e: Event<T>, o: Settings)
    requires JoinsOnlyLater(c, key, n) && Enabled(c, e)
    ensures JoinsOnlyLater(Step(c, e, o), key, n)
  {}

  /** The reply is no older than the `n`th load: a request begun since, or a value one of those returned. */
  ghost predicate AnswersSince<T>(c: Cache<T>, n: nat, reply: Reply<T>) {
    match reply
    case Served(e) => FromALaterLoad(c.loads, n, e)
    case Joined(req) => n <= req
    case Started(req) => n <= req
    case Threw => true
  }

  lemma {:induction false} SinceAnswersSince<T>(c: Cache<T>, key: string, n: nat, now: int, throws: bool, o: Settings)
    requires Sound(c, o) && JoinsOnlyLater(c, key, n)
    ensures var reply := GetReply(c, key, now, throws, o); reply.Served? || AnswersSince(c, n, reply)
    ensures OnlyLater(c, key, n) ==> AnswersSince(c, n, GetReply(c, key, now, throws, o))
  {
    var hit := Fresh(c, key, now, o);
    if OnlyLater(c, key, n) && hit.Some? {
      assert FromALaterLoad(c.loads, n, c.values[Find(c.values, key).value]);
    }
  }

  /**
   After a key is forgotten no `get` of it ever joins an older request, whatever is running; and if none of its
   loads is running then, no `get` of it is ever answered with anything older.
   */
  lemma {:induction false} ForgettingStartsAnew<T>(c: Cache<T>, key: string, es: seq<Event<T>>, now: int, throws: bool,
        o: Settings)
    requires Sound(c, o) && Runs(Forgotten(c, key), es, o)
    ensures var end := End(Forgotten(c, key), es, o);
            var reply := GetReply(end, key, now, throws, o);
            && (reply.Served? || AnswersSince(end, |c.loads|, reply))
            && (LoadRunning(c, key, |c.loads|) || AnswersSince(end, |c.loads|, reply))
  {
    var g := Forgotten(c, key);
    StepSound(c, Invalidate(key), o);
    EveryRunIsSound(g, es, o);
    RunJoinsOnlyLater(g, key, |c.loads|, es, o);
    if !LoadRunning(c, key, |c.loads|) {
      DeleteKeeps(c.values, key);
      RunSince(g, key, |c.loads|, es, o);
    }
    SinceAnswersSince(End(g, es, o), key, |c.loads|, now, throws, o);
  }

  /** Whatever happens after it, nothing loaded before `clear` is stored again, under any key. */
  ghost predicate ClearingHolds<T(!new)>(c: Cache<T>, o: Settings) {
    forall es, key | Runs(Cleared(c), es, o) :: OnlyLater(End(Cleared(c), es, o), key, |c.loads|)
  }

  ghost predicate AnyRunning<T>(c: Cache<T>) {
    exists r :: 0 <= r < |c.loads| && c.loads[r].state.Running?
  }

  lemma {:induction false} ClearedComesBack<T(!new)>(c: Cache<T>, o: Settings, req: nat, value: T)
    requires o.max >= 1 && req < |c.loads| && c.loads[req].state.Running?
    ensures !ClearingHolds(c, o)
  {
    var g, key := Cleared(c), c.loads[req].key;
    var e: Event<T> := Settle(req, Some(value), 0);
    OneEvent(g, e, o);
    var t := SettleStep(g, req, Some(value), 0, o);
    assert Find(g.values, key).None?;
    assert t.values == [Pair(key, Stored(value, 0))];
    HeldIsNotLater(t, key, t.values[0], |c.loads|);
    assert Runs(g, [e], o) && !OnlyLater(End(g, [e], o), key, |c.loads|);
  }

  lemma {:induction false} ClearedSince<T>(c: Cache<T>, key: string, es: seq<Event<T>>, o: Settings)
    requires Sound(c, o) && Runs(Cleared(c), es, o) && (o.max < 1 || !AnyRunning(c))
    ensures OnlyLater(End(Cleared(c), es, o), key, |c.loads|)
  {
    StepSound(c, Clear, o);
    EveryRunIsSound(Cleared(c), es, o);
    if o.max >= 1 {
      assert Since(Cleared(c), key, |c.loads|);
      RunSince(Cleared(c), key, |c.loads|, es, o);
    }
  }

  /**
   Clearing keeps every older answer out in every run to come if and only
   if no load at all is running then, or the cache can hold nothing.
   */
  lemma {:induction false} ClearingHoldsExactly<T(!new)>(c: Cache<T>, o: Settings, some: T)
    requires Sound(c, o)
    ensures ClearingHolds(c, o) <==> !AnyRunning(c) || o.max < 1
  {
    if o.max >= 1 && AnyRunning(c) {
      var r :| 0 <= r < |c.loads| && c.loads[r].state.Running?;
      ClearedComesBack(c, o, r, some);
    } else {
      forall es, key | Runs(Cleared(c), es, o) ensures OnlyLater(End(Cleared(c), es, o), key, |c.loads|) {
        ClearedSince(c, key, es, o);
      }
    }
  }

  /**
   After `clear` no `get`, of whatever key, ever joins an older request;
   and with no load running then, none is answered with anything older.
   */
  lemma {:induction false} ClearingStartsAnew<T>(c: Cache<T>, key: string, es: seq<Event<T>>, now: int, throws: bool,
        o: Settings)
    requires Sound(c, o) && Runs(Cleared(c), es, o)
    ensures var end := End(Cleared(c), es, o);
            var reply := GetReply(end, key, now, throws, o);
            && (reply.Served? || AnswersSince(end, |c.loads|, reply))
            && (AnyRunning(c) || AnswersSince(end, |c.loads|, reply))
  {
    StepSound(c, Clear, o);
    EveryRunIsSound(Cleared(c), es, o);
    RunJoinsOnlyLater(Cleared(c), key, |c.loads|, es, o);
    if !AnyRunning(c) { ClearedSince(c, key, es, o); }
    SinceAnswersSince(End(Cleared(c), es, o), key, |c.loads|, now, throws, o);
  }

  /** Where nothing was forgotten before, whether a load of the key is running can be read off the map of requests. */
  lemma {:induction false} RunningIsInFlight<T>(c: Cache<T>, key: string, o: Settings)
    requires Orderly(c, o)
    ensures LoadRunning(c, key, |c.loads|) <==> key in c.inflight
  {
    if key in c.inflight {
      assert c.loads[c.inflight[key]] == Load(key, Running);
    }
  }

  // ---------------------------------------------------------------- the cache itself

  /** The loop that drops the oldest entry while there are more than `max`. */
  method EvictOldest<T>(entries: seq<Entry<T>>, max: int) returns (kept: seq<Entry<T>>)
    ensures kept == Evicted(entries, max)
  {
    kept := entries;
    while |kept| > max
      invariant Evicted(kept, max) == Evicted(entries, max)
      decreases |kept|
    {
      if |kept| == 0 { break; }
      kept := kept[1..];
    }
  }

  class ReportCache<T> {
    const o: Settings
    var values: seq<Entry<T>>
    var inflight: map<string, nat>
    ghost var run: Cache<T>

    ghost predicate Valid()
      reads this
    {
      run.values == values && run.inflight == inflight
    }

    constructor (o: Settings)
      ensures Valid() && this.o == o && run == Empty<T>()
    {
      this.o, values, inflight := o, [], map[];
      run := Empty<T>();
    }

    method FreshEntry(key: string, now: int) returns (hit: Option<Entry<T>>)
      requires Valid()
      modifies this
      ensures Valid() && hit == Fresh(old(run), key, now, o) && run == Swept(old(run), key, now, o)
    {
      var i := Find(values, key);
      if i.None? { return None; }
      if now - values[i.value].value.at >= o.ttlMs {
        values := Delete(values, key);
        run := Swept(run, key, now, o);
        return None;
      }
      hit := Some(values[i.value]);
    }

    /** `req` names the promise `load` would return. */
    method Fetch(key: string, now: int, throws: bool, req: nat) returns (reply: Reply<T>)
      requires Valid() && req == |run.loads|
      modifies this
      ensures Valid() && reply == GetReply(old(run), key, now, throws, o)
      ensures run == Step(old(run), Get(key, now, throws), o)
    {
      ghost var before := run;
      var hit := FreshEntry(key, now);
      run := Step(before, Get(key, now, throws), o);
      if hit.Some? {
        values := Delete(values, key) + [hit.value];
        return Served(hit.value);
      }
      if key in inflight { return Joined(inflight[key]); }
      if throws { return Threw; }
      inflight := inflight[key := req];
      reply := Started(req);
    }

    /** The load `req` of `key` completes; on success the oldest entries make room. */
    method Settled(req: nat, key: string, outcome: Option<T>, now: int)
      requires Valid() && Enabled(run, Settle(req, outcome, now)) && key == run.loads[req].key
      modifies this
      ensures Valid() && run == Step(old(run), Settle(req, outcome, now), o)
    {
      inflight := inflight - {key};
      if outcome.Some? {
        values := Put(values, Pair(key, Stored(outcome.value, now)));
        values := EvictOldest(values, o.max);
      }
      run := Step(run, Settle(req, outcome, now), o);
    }

    method Look(key: string, now: int) returns (value: Option<T>)
      requires Valid()
      modifies this
      ensures Valid() && run == Step(old(run), Peek(key, now), o)
      ensures value == match Fresh(old(run), key, now, o) case None => None case Some(e) => Some(e.value.value)
    {
      var hit := FreshEntry(key, now);
      value := if hit.None? then None else Some(hit.value.value.value);
    }

    method Forget(key: string)
      requires Valid()
      modifies this
      ensures Valid() && run == Step(old(run), Invalidate(key), o)
    {
      run := Forgotten(run, key);
      values := Delete(values, key);
      inflight := inflight - {key};
    }

    method ForgetAll()
      requires Valid()
      modifies this
      ensures Valid() && run == Step(old(run), Clear, o)
    {
      values, inflight := [], map[];
      run := Step(run, Clear, o);
    }
  }
}
