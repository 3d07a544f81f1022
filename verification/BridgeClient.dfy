/**
 The live connection (`src/lib/bridgeClient.ts`, `connectLive`): a WebSocket, a reconnect timer, and a
 polling fallback, as a state machine over the events the browser delivers.

 A timer's handle is not cleared from its variable when the timer fires, and a request in flight is not
 cancelled when polling stops; both are modelled as they are.
 */
module BridgeClient {
  import opened Wrappers

  const POLL_FALLBACK_MS := 15000
  const BACKOFF_CAP_MS := 120000
  const FETCH_TIMEOUT_MS := 10000

  function Min(a: int, b: int): int { if a < b then a else b }

  function Pow2(n: nat): nat { if n == 0 then 1 else 2 * Pow2(n - 1) }

  function NextPollDelay(failures: nat): int {
    if failures == 0 then POLL_FALLBACK_MS else Min(POLL_FALLBACK_MS * Pow2(Min(failures, 4)), BACKOFF_CAP_MS)
  }

  /** Each failure doubles the delay, to two minutes and no further. */
  lemma {:induction false} BackoffDoublesToTheCap(failures: nat)
    ensures NextPollDelay(failures) ==
      (if failures == 0 then 15000 else if failures == 1 then 30000 else if failures == 2 then 60000 else 120000)
    ensures NextPollDelay(failures) <= NextPollDelay(failures + 1) == Min(2 * NextPollDelay(failures), 120000)
  {
    assert Pow2(1) == 2 && Pow2(2) == 4 && Pow2(3) == 8 && Pow2(4) == 16;
  }

  datatype Status = Connected | Reconnecting | PollingFallback

  /** What the handlers see, with a mark where the caller disconnected. */
  datatype Output = Data | Told(status: Status) | HungUp

  /** How a readings request ends. `OnData` may throw, and any handler may disconnect before it returns. */
  datatype Outcome = Rows | RowsThenThrow | Failed

  datatype Event =
    | Opened(socket: nat, hangsUp: bool)
    | Message(socket: nat, parses: bool, hangsUp: bool)
    | Closed(socket: nat, hangsUp: bool)
    | PollDue(timer: nat)
    | Reply(outcome: Outcome, hangsUp: bool)
    | ReconnectDue(timer: nat, throws: bool)
    | Disconnect

  /**
   The closure's variables (`closed` to `pollFailures`), what the browser holds for it (sockets whose close
   has not fired, armed timers with their delays, requests out), and the history: whether a socket has closed
   since the last opened, and every output.
   */
  datatype Conn = Conn(
    closed: bool, ws: Option<nat>, pollTimer: Option<nat>, reconnectTimer: Option<nat>,
    pollInFlight: bool, pollFailures: nat,
    sockets: set<nat>, polls: map<nat, int>, reconnects: set<nat>, requests: nat, nextId: nat,
    down: bool, log: seq<Output>)

  const FRESH := Conn(false, None, None, None, false, 0, {}, map[], {}, 0, 0, false, [])

  function StopPolling(c: Conn): Conn {
    c.(polls := if c.pollTimer.Some? then c.polls - {c.pollTimer.value} else c.polls, pollTimer := None,
      pollFailures := 0)
  }

  function ArmPoll(c: Conn): Conn {
    c.(polls := c.polls[c.nextId := NextPollDelay(c.pollFailures)], pollTimer := Some(c.nextId), nextId := c.nextId + 1)
  }

  function PollLoop(c: Conn): Conn {
    if c.closed then c
    else if c.pollInFlight then ArmPoll(c)
    else c.(pollInFlight := true, requests := c.requests + 1)
  }

  function StartPolling(c: Conn): Conn {
    if c.pollTimer.Some? || c.closed then c else PollLoop(c)
  }

  function ScheduleReconnect(c: Conn): Conn {
    if c.closed then c
    else
      var cleared := if c.reconnectTimer.Some? then c.reconnects - {c.reconnectTimer.value} else c.reconnects;
      c.(reconnects := cleared + {c.nextId}, reconnectTimer := Some(c.nextId), nextId := c.nextId + 1)
  }

  function OpenSocket(c: Conn, throws: bool): Conn {
    if c.closed then c
    else if throws then ScheduleReconnect(c)
    else c.(sockets := c.sockets + {c.nextId}, ws := Some(c.nextId), nextId := c.nextId + 1)
  }

  /** The disconnect function; calling it again changes nothing. */
  function HangUp(c: Conn): Conn {
    if c.closed then c
    else
      var stopped := StopPolling(c.(closed := true));
      stopped.(reconnects := if c.reconnectTimer.Some? then c.reconnects - {c.reconnectTimer.value} else c.reconnects,
               ws := None, log := c.log + [HungUp])
  }

  /** A handler runs, and may disconnect before it returns. */
  function Emit(c: Conn, o: Output, hangsUp: bool): Conn {
    var said := c.(log := c.log + [o]);
    if hangsUp then HangUp(said) else said
  }

  function OpenedStep(c: Conn, hangsUp: bool): Conn {
    if c.closed then c else StopPolling(Emit(c, Told(Connected), hangsUp)).(down := false)
  }

  function ClosedStep(c: Conn, socket: nat, hangsUp: bool): Conn {
    var gone := c.(sockets := c.sockets - {socket});
    if c.closed then gone
    else ScheduleReconnect(StartPolling(Emit(gone.(ws := None, down := true), Told(Reconnecting), hangsUp)))
  }

  function ReplyStep(c: Conn, outcome: Outcome, hangsUp: bool): Conn
    requires c.requests > 0
  {
    var back := c.(pollInFlight := false, requests := c.requests - 1);
    if c.closed then back
    else
      var handled := match outcome
        case Rows =>
          var said := Emit(back.(pollFailures := 0), Data, hangsUp);
          said.(log := said.log + [Told(PollingFallback)])
        case RowsThenThrow =>
          var said := Emit(back.(pollFailures := 0), Data, hangsUp);
          if said.closed then said else said.(pollFailures := said.pollFailures + 1)
        case Failed => back.(pollFailures := back.pollFailures + 1);
      if handled.closed then handled else ArmPoll(handled)
  }

  predicate Enabled(c: Conn, e: Event) {
    match e
    case Opened(socket, _) => socket in c.sockets
    case Message(socket, _, _) => socket in c.sockets
    case Closed(socket, _) => socket in c.sockets
    case PollDue(timer) => timer in c.polls
    case Reply(_, _) => c.requests > 0
    case ReconnectDue(timer, _) => timer in c.reconnects
    case Disconnect => true
  }

  function Step(c: Conn, e: Event): Conn
    requires Enabled(c, e)
  {
    match e
    case Opened(_, hangsUp) => OpenedStep(c, hangsUp)
    case Message(_, parses, hangsUp) => if c.closed || !parses then c else Emit(c, Data, hangsUp)
    case Closed(socket, hangsUp) => ClosedStep(c, socket, hangsUp)
    case PollDue(timer) => PollLoop(c.(polls := c.polls - {timer}))
    case Reply(outcome, hangsUp) => ReplyStep(c, outcome, hangsUp)
    case ReconnectDue(timer, throws) => OpenSocket(c.(reconnects := c.reconnects - {timer}), throws)
    case Disconnect => HangUp(c)
  }

  /** `connectLive` itself: the first socket, or the first reconnect timer if it could not be made. */
  function Connect(throws: bool): Conn { OpenSocket(FRESH, throws) }

  ghost predicate Runs(c: Conn, es: seq<Event>)
    decreases |es|
  {
    es == [] || (Enabled(c, es[0]) && Runs(Step(c, es[0]), es[1..]))
  }

  ghost function End(c: Conn, es: seq<Event>): Conn
    requires Runs(c, es)
    decreases |es|
  {
    if es == [] then c else End(Step(c, es[0]), es[1..])
  }

  // ---------------------------------------------------------------- what every run keeps

  /** Until disconnect: exactly one of a socket that has not closed and an armed reconnect timer. */
  ghost predicate OneWayBack(c: Conn) {
    if c.closed then c.reconnects == {}
    else || (c.reconnects == {} && exists s :: c.sockets == {s})
         || (c.sockets == {} && c.reconnectTimer.Some? && c.reconnects == {c.reconnectTimer.value})
  }

  /** At most one request is ever out, and the flag says whether one is. */
  ghost predicate OneRequest(c: Conn) {
    c.requests == if c.pollInFlight then 1 else 0
  }

  /** While down, a poll is out or armed; a remembered poll timer is armed, or its poll is out. */
  ghost predicate KeepsPolling(c: Conn) {
    && (!c.closed && c.down ==> c.pollInFlight || c.polls.Keys != {})
    && (!c.closed && c.pollTimer.Some? ==> c.pollTimer.value in c.polls || c.pollInFlight)
  }

  ghost predicate HandlesFresh(c: Conn) {
    && (forall t | t in c.polls :: t < c.nextId && 15000 <= c.polls[t] <= 120000)
    && (forall t | t in c.reconnects :: t < c.nextId)
    && (forall t | t in c.sockets :: t < c.nextId)
    && (c.pollTimer.Some? ==> c.pollTimer.value < c.nextId)
  }

  ghost predicate Safe(c: Conn) {
    OneWayBack(c) && OneRequest(c) && KeepsPolling(c) && HandlesFresh(c)
  }

  lemma {:induction false} ConnectSafe(throws: bool)
    ensures Safe(Connect(throws))
  {
    if !throws { assert Connect(throws).sockets == {0}; }
  }

  lemma {:induction false} HangUpSafe(c: Conn)
    requires Safe(c)
    ensures Safe(HangUp(c))
  {}

  lemma {:induction false} EmitSafe(c: Conn, o: Output, hangsUp: bool)
    requires Safe(c)
    ensures Safe(Emit(c, o, hangsUp))
  {
    HangUpSafe(c.(log := c.log + [o]));
  }

  lemma {:induction false} StopPollingSafe(c: Conn)
    requires Safe(c)
    ensures Safe(StopPolling(c).(down := false))
  {}

  lemma {:induction false} ArmPollSafe(c: Conn)
    requires OneWayBack(c) && OneRequest(c) && HandlesFresh(c)
    ensures Safe(ArmPoll(c)) && ArmPoll(c).polls.Keys != {}
  {
    BackoffDoublesToTheCap(c.pollFailures);
    assert c.nextId in ArmPoll(c).polls;
  }

  lemma {:induction false} PollLoopSafe(c: Conn)
    requires OneWayBack(c) && OneRequest(c) && HandlesFresh(c)
    ensures Safe(PollLoop(c))
  {
    if !c.closed && c.pollInFlight { ArmPollSafe(c); }
  }

  lemma {:induction false} ScheduleReconnectSafe(c: Conn)
    requires OneRequest(c) && KeepsPolling(c) && HandlesFresh(c)
    requires if c.closed then c.reconnects == {} else c.sockets == {} && c.reconnects == {}
    ensures Safe(ScheduleReconnect(c))
  {}

  lemma {:induction false} OpenSocketSafe(c: Conn, throws: bool)
    requires OneRequest(c) && KeepsPolling(c) && HandlesFresh(c)
    requires if c.closed then c.reconnects == {} else c.sockets == {} && c.reconnects == {}
    ensures Safe(OpenSocket(c, throws))
  {
    if !c.closed && !throws { assert OpenSocket(c, throws).sockets == {c.nextId}; }
  }

  lemma {:induction false} ClosedStepSafe(c: Conn, socket: nat, hangsUp: bool)
    requires Safe(c) && socket in c.sockets
    ensures Safe(ClosedStep(c, socket, hangsUp))
  {
    var gone := c.(sockets := c.sockets - {socket});
    if !c.closed {
      assert gone.sockets == {};
      var told := Emit(gone.(ws := None, down := true), Told(Reconnecting), hangsUp);
      var polling := StartPolling(told);
      if !told.closed && told.pollTimer.None? && told.pollInFlight {
        BackoffDoublesToTheCap(told.pollFailures);
        assert told.nextId in polling.polls;
      }
      ScheduleReconnectSafe(polling);
    }
  }

  lemma {:induction false} ReplyStepSafe(c: Conn, outcome: Outcome, hangsUp: bool)
    requires Safe(c) && c.requests > 0
    ensures Safe(ReplyStep(c, outcome, hangsUp))
  {
    var back := c.(pollInFlight := false, requests := c.requests - 1);
    if !c.closed {
      match outcome
      case Rows =>
        var said := Emit(back.(pollFailures := 0), Data, hangsUp);
        var handled := said.(log := said.log + [Told(PollingFallback)]);
        if !handled.closed { ArmPollSafe(handled); }
      case RowsThenThrow =>
        var said := Emit(back.(pollFailures := 0), Data, hangsUp);
        if !said.closed { ArmPollSafe(said.(pollFailures := said.pollFailures + 1)); }
      case Failed => ArmPollSafe(back.(pollFailures := back.pollFailures + 1));
    }
  }

  lemma {:induction false} StepSafe(c: Conn, e: Event)
    requires Safe(c) && Enabled(c, e)
    ensures Safe(Step(c, e))
  {
    match e
    case Opened(_, hangsUp) =>
      EmitSafe(c, Told(Connected), hangsUp);
      StopPollingSafe(Emit(c, Told(Connected), hangsUp));
    case Message(_, _, hangsUp) => EmitSafe(c, Data, hangsUp);
    case Closed(socket, hangsUp) => ClosedStepSafe(c, socket, hangsUp);
    case PollDue(timer) => PollLoopSafe(c.(polls := c.polls - {timer}));
    case Reply(outcome, hangsUp) => ReplyStepSafe(c, outcome, hangsUp);
    case ReconnectDue(timer, throws) => OpenSocketSafe(c.(reconnects := c.reconnects - {timer}), throws);
    case Disconnect => HangUpSafe(c);
  }

  lemma {:induction false} RunsAreSafe(c: Conn, es: seq<Event>)
    requires Safe(c) && Runs(c, es)
    ensures Safe(End(c, es))
    decreases |es|
  {
    if es != [] {
      StepSafe(c, es[0]);
      RunsAreSafe(Step(c, es[0]), es[1..]);
    }
  }

  /** In every run of the connection: one way back, one request at most, and polling while down. */
  lemma {:induction false} EveryRunIsSafe(throws: bool, es: seq<Event>)
    requires Runs(Connect(throws), es)
    ensures Safe(End(Connect(throws), es))
  {
    ConnectSafe(throws);
    RunsAreSafe(Connect(throws), es);
  }

  /** After disconnect no step says anything, starts anything, or undoes it. */
  lemma {:induction false} ClosedIsQuiet(c: Conn, e: Event)
    requires Safe(c) && c.closed && Enabled(c, e)
    ensures var d := Step(c, e);
            d.closed && d.log == c.log && d.sockets <= c.sockets && d.polls.Keys <= c.polls.Keys && d.reconnects == {}
              && d.requests <= c.requests
  {}

  lemma {:induction false} ClosedStaysQuiet(c: Conn, es: seq<Event>)
    requires Safe(c) && c.closed && Runs(c, es)
    ensures End(c, es).closed && End(c, es).log == c.log
    decreases |es|
  {
    if es != [] {
      ClosedIsQuiet(c, es[0]);
      StepSafe(c, es[0]);
      ClosedStaysQuiet(Step(c, es[0]), es[1..]);
    }
  }

  // ---------------------------------------------------------------- what every event says and does

  function Hung(hangsUp: bool): seq<Output> { if hangsUp then [HungUp] else [] }

  /** What the handlers hear of an event, on a connection that is closed or not. */
  function Says(closed: bool, e: Event): seq<Output> {
    if closed then []
    else
      match e
      case Opened(_, hangsUp) => [Told(Connected)] + Hung(hangsUp)
      case Message(_, parses, hangsUp) => if parses then [Data] + Hung(hangsUp) else []
      case Closed(_, hangsUp) => [Told(Reconnecting)] + Hung(hangsUp)
      case PollDue(_) => []
      case Reply(outcome, hangsUp) =>
        (match outcome
         case Rows => [Data] + Hung(hangsUp) + [Told(PollingFallback)]
         case RowsThenThrow => [Data] + Hung(hangsUp)
         case Failed => [])
      case ReconnectDue(_, _) => []
      case Disconnect => [HungUp]
  }

  /** Each event says just that, and disconnects exactly where that says so. */
  lemma {:induction false} EventsSay(c: Conn, e: Event)
    requires Enabled(c, e)
    ensures Step(c, e).log == c.log + Says(c.closed, e)
    ensures Step(c, e).closed <==> c.closed || HungUp in Says(c.closed, e)
  {
    match e
    case Opened(_, hangsUp) => EmitSays(c, Told(Connected), hangsUp);
    case Message(_, _, hangsUp) => EmitSays(c, Data, hangsUp);
    case Closed(socket, hangsUp) =>
      EmitSays(c.(sockets := c.sockets - {socket}, ws := None, down := true), Told(Reconnecting), hangsUp);
    case Reply(outcome, hangsUp) => RepliesSay(c, outcome, hangsUp);
    case _ =>
  }

  lemma {:induction false} EmitSays(c: Conn, o: Output, hangsUp: bool)
    ensures !c.closed ==> Emit(c, o, hangsUp).log == c.log + ([o] + Hung(hangsUp))
    ensures !c.closed ==> Emit(c, o, hangsUp).closed == hangsUp
  {}

  lemma {:induction false} RepliesSay(c: Conn, outcome: Outcome, hangsUp: bool)
    requires c.requests > 0
    ensures ReplyStep(c, outcome, hangsUp).log == c.log + Says(c.closed, Reply(outcome, hangsUp))
    ensures ReplyStep(c, outcome, hangsUp).closed <==> c.closed || HungUp in Says(c.closed, Reply(outcome, hangsUp))
  {
    var back := c.(pollInFlight := false, requests := c.requests - 1, pollFailures := 0);
    if !c.closed && !outcome.Failed? { EmitSays(back, Data, hangsUp); }
  }

  /** A frame is handed on whole and changes nothing else; one that does not parse changes nothing at all. */
  lemma {:induction false} FramesChangeNothingElse(c: Conn, socket: nat, parses: bool)
    requires !c.closed && socket in c.sockets
    ensures Step(c, Message(socket, parses, false)) == if parses then c.(log := c.log + [Data]) else c
  {}

  ghost function Said(closed: bool, es: seq<Event>): seq<Output>
    decreases |es|
  {
    if es == [] then []
    else Says(closed, es[0]) + Said(closed || HungUp in Says(closed, es[0]), es[1..])
  }

  /** All a run says is what its events say, in order, up to the disconnect. */
  lemma {:induction false} RunsSay(c: Conn, es: seq<Event>)
    requires Runs(c, es)
    ensures End(c, es).log == c.log + Said(c.closed, es)
    decreases |es|
  {
    if es != [] {
      EventsSay(c, es[0]);
      RunsSay(Step(c, es[0]), es[1..]);
    }
  }

  ghost function Datas(log: seq<Output>): nat {
    if log == [] then 0 else Datas(log[..|log| - 1]) + (if log[|log| - 1].Data? then 1 else 0)
  }

  lemma {:induction false} DatasAppend(a: seq<Output>, b: seq<Output>)
    ensures Datas(a + b) == Datas(a) + Datas(b)
  {
    if b == [] {
      assert a + b == a;
    } else {
      assert (a + b)[..|a + b| - 1] == a + b[..|b| - 1];
      DatasAppend(a, b[..|b| - 1]);
    }
  }

  /** A frame that parses, or an answered request with rows. */
  predicate Delivers(e: Event) {
    (e.Message? && e.parses) || (e.Reply? && !e.outcome.Failed?)
  }

  predicate HangsUp(e: Event) {
    match e
    case Opened(_, hangsUp) => hangsUp
    case Message(_, parses, hangsUp) => parses && hangsUp
    case Closed(_, hangsUp) => hangsUp
    case Reply(outcome, hangsUp) => !outcome.Failed? && hangsUp
    case Disconnect => true
    case _ => false
  }

  /** How many rows a run brought before it was disconnected. */
  ghost function Deliveries(closed: bool, es: seq<Event>): nat
    decreases |es|
  {
    if es == [] then 0
    else (if !closed && Delivers(es[0]) then 1 else 0) + Deliveries(closed || HangsUp(es[0]), es[1..])
  }

  lemma {:induction false} OneDelivery(closed: bool, e: Event)
    ensures Datas(Says(closed, e)) == if !closed && Delivers(e) then 1 else 0
    ensures !closed ==> (HungUp in Says(closed, e) <==> HangsUp(e))
  {
    assert Datas([]) == 0;
    forall o ensures Datas([o]) == if o.Data? then 1 else 0 { assert [o][..0] == []; }
    forall a, b { DatasAppend(a, b); }
  }

  /** The handler gets rows as often as a frame parsed or a request brought rows while the connection was not closed. */
  lemma {:induction false} DataAreTheDeliveries(c: Conn, es: seq<Event>)
    requires Runs(c, es)
    ensures Datas(End(c, es).log) == Datas(c.log) + Deliveries(c.closed, es)
    decreases |es|
  {
    if es != [] {
      EventsSay(c, es[0]);
      OneDelivery(c.closed, es[0]);
      DatasAppend(c.log, Says(c.closed, es[0]));
      DataAreTheDeliveries(Step(c, es[0]), es[1..]);
    }
  }

  /**
   The failures in a row once an event came: none after rows, an opening or a disconnect, one more after a failure.
   */
  function FailuresAfter(closed: bool, n: nat, e: Event): nat {
    if closed then n
    else if HangsUp(e) || e.Opened? then 0
    else if !e.Reply? then n
    else match e.outcome case Rows => 0 case RowsThenThrow => 1 case Failed => n + 1
  }

  ghost function FailuresInARow(closed: bool, n: nat, es: seq<Event>): nat
    decreases |es|
  {
    if es == [] then n
    else FailuresInARow(closed || HangsUp(es[0]), FailuresAfter(closed, n, es[0]), es[1..])
  }

  lemma {:induction false} EventsCount(c: Conn, e: Event)
    requires Safe(c) && Enabled(c, e)
    ensures Step(c, e).pollFailures == FailuresAfter(c.closed, c.pollFailures, e)
    ensures Step(c, e).closed <==> c.closed || HangsUp(e)
  {}

  /** The count is that of the failures in a row, and every timer armed on the way waits by the count of that moment. */
  lemma {:induction false} FailuresAreInARow(c: Conn, es: seq<Event>)
    requires Safe(c) && Runs(c, es)
    ensures End(c, es).pollFailures == FailuresInARow(c.closed, c.pollFailures, es)
    decreases |es|
  {
    if es != [] {
      EventsCount(c, es[0]);
      StepSafe(c, es[0]);
      FailuresAreInARow(Step(c, es[0]), es[1..]);
    }
  }

  /**
   The poll timers, the requests and the remembered timer, and whether one of them changed as `arms` or `asks` says.
   */
  ghost predicate Polls(c: Conn, d: Conn, left: map<nat, int>, arms: bool, asks: bool) {
    && d.polls == (if arms then left[c.nextId := NextPollDelay(d.pollFailures)] else left)
    && d.requests == c.requests + (if asks then 1 else 0)
  }

  /** A poll timer that goes off begins a request, or waits again while one is out. */
  lemma {:induction false} TimersAsk(c: Conn, timer: nat)
    requires Safe(c) && !c.closed && timer in c.polls
    ensures var d := Step(c, PollDue(timer));
            && Polls(c, d, c.polls - {timer}, c.pollInFlight, !c.pollInFlight)
            && d == c.(polls := d.polls, requests := d.requests, pollInFlight := true,
                       pollTimer := if c.pollInFlight then Some(c.nextId) else c.pollTimer,
                       nextId := if c.pollInFlight then c.nextId + 1 else c.nextId)
  {}

  /** An answered request makes room for the next, and a timer is armed by the count of failures. */
  lemma {:induction false} AnswersArm(c: Conn, outcome: Outcome)
    requires Safe(c) && !c.closed && c.requests > 0
    ensures var d := Step(c, Reply(outcome, false));
            && d.polls == c.polls[c.nextId :=
               NextPollDelay(FailuresAfter(false, c.pollFailures, Reply(outcome, false)))]
            && d == c.(polls := d.polls, requests := 0, pollInFlight := false, pollTimer := Some(c.nextId),
                       nextId := c.nextId + 1, pollFailures := d.pollFailures, log := d.log)
  {}

  /** A socket that closes starts the polling if no timer of it is remembered, and arms the reconnect. */
  lemma {:induction false} ClosesPoll(c: Conn, socket: nat)
    requires Safe(c) && !c.closed && socket in c.sockets
    ensures var d, arms := Step(c, Closed(socket, false)), c.pollTimer.None? && c.pollInFlight;
            var next := if arms then c.nextId + 1 else c.nextId;
            && Polls(c, d, c.polls, arms, c.pollTimer.None? && !c.pollInFlight)
            && d == c.(sockets := {}, ws := None, down := true, log := c.log + [Told(Reconnecting)],
                       reconnects := {next}, reconnectTimer := Some(next), nextId := next + 1,
                       polls := d.polls, requests := d.requests, pollInFlight := c.pollInFlight || c.pollTimer.None?,
                       pollTimer := if arms then Some(c.nextId) else c.pollTimer)
  {
    assert c.sockets - {socket} == {};
  }

  /**
   The reconnect timer opens the next socket, or is armed again; an opening stops the remembered poll and the count.
   */
  lemma {:induction false} ReconnectsOpen(c: Conn, timer: nat, socket: nat)
    requires Safe(c) && !c.closed
    ensures timer in c.reconnects ==>
              && Step(c, ReconnectDue(timer, false)) ==
                 c.(reconnects := {}, sockets := {c.nextId}, ws := Some(c.nextId), nextId := c.nextId + 1)
              && Step(c, ReconnectDue(timer, true)) ==
                 c.(reconnects := {c.nextId}, reconnectTimer := Some(c.nextId), nextId := c.nextId + 1)
    ensures socket in c.sockets ==>
              Step(c, Opened(socket, false)) ==
              c.(polls := map t | t in c.polls && c.pollTimer != Some(t) :: c.polls[t], pollTimer := None,
                 pollFailures := 0, down := false, log := c.log + [Told(Connected)])
  {
    if timer in c.reconnects {
      assert c.reconnects == {timer};
      assert c.reconnects - {timer} == {} && c.sockets == {};
    }
  }

  /** Disconnecting clears the remembered timers, the reconnect and the socket, and says so once. */
  lemma {:induction false} DisconnectClears(c: Conn)
    requires Safe(c)
    ensures Step(c, Disconnect) ==
            if c.closed then c
            else c.(closed := true, ws := None, reconnects := {}, pollTimer := None, pollFailures := 0,
                    polls := map t | t in c.polls && c.pollTimer != Some(t) :: c.polls[t], log := c.log + [HungUp])
  {}

  /** A step that disconnects says nothing after, unless it is a poll's rows whose own handler disconnects. */
  lemma {:induction false} LastWordExactly(c: Conn, e: Event)
    requires Safe(c) && !c.closed && Enabled(c, e) && Step(c, e).closed
    ensures var log := Step(c, e).log;
            if e.Reply? && e.outcome.Rows? then log == c.log + [Data, HungUp, Told(PollingFallback)]
            else log[|log| - 1] == HungUp && (log == c.log + [HungUp] || exists o :: log == c.log + [o, HungUp])
  {
    var log := Step(c, e).log;
    match e
    case Opened(_, _) => assert log == c.log + [Told(Connected), HungUp];
    case Message(_, _, _) => assert log == c.log + [Data, HungUp];
    case Closed(_, _) => assert log == c.log + [Told(Reconnecting), HungUp];
    case Reply(outcome, _) =>
      if outcome.Rows? {
        assert log == c.log + [Data] + [HungUp] + [Told(PollingFallback)];
      } else {
        assert log == c.log + [Data, HungUp];
      }
    case _ =>
  }

  /** Nothing polls any more: no poll armed, none out. */
  predicate Still(c: Conn) { c.polls == map[] && !c.pollInFlight }

  /**
   A socket that opens stops the polling exactly when no request
   was out and no timer but the remembered one was armed.
   */
  lemma {:induction false} OpeningStopsPollingExactly(c: Conn, socket: nat)
    requires Safe(c) && !c.closed && socket in c.sockets
    ensures var d := Step(c, Opened(socket, false));
            && d.log == c.log + [Told(Connected)]
            && (Still(d) <==> !c.pollInFlight && forall t | t in c.polls :: c.pollTimer == Some(t))
  {
    var d := Step(c, Opened(socket, false));
    if d.polls == map[] {
      forall t | t in c.polls ensures c.pollTimer == Some(t) {
        assert t !in d.polls;
      }
    }
    if forall t | t in c.polls :: c.pollTimer == Some(t) {
      assert d.polls.Keys == {};
    }
  }

  /**
   A request out over a reconnection, with polling stopped meanwhile: the next close and its answer arm a timer each.
   */
  lemma {:induction false} PollingChainsDouble(c: Conn, socket: nat)
    requires Safe(c) && !c.closed && socket in c.sockets && c.pollInFlight && c.pollTimer.None?
    ensures Enabled(Step(c, Closed(socket, false)), Reply(Failed, false))
    ensures Step(Step(c, Closed(socket, false)), Reply(Failed, false)).polls.Keys ==
      c.polls.Keys + {c.nextId, c.nextId + 2}
  {
    var d := Step(c, Closed(socket, false));
    assert d.polls.Keys == c.polls.Keys + {c.nextId} && d.nextId == c.nextId + 2 && d.requests == 1;
  }

  lemma {:induction false} OneMoreStep(c: Conn, es: seq<Event>, e: Event)
    requires Runs(c, es) && Enabled(End(c, es), e)
    ensures Runs(c, es + [e]) && End(c, es + [e]) == Step(End(c, es), e)
    decreases |es|
  {
    if es == [] {
      assert [e][1..] == [] && es + [e] == [e];
      assert Runs(Step(c, e), []) && End(Step(c, e), []) == Step(c, e);
    } else {
      assert (es + [e])[1..] == es[1..] + [e];
      OneMoreStep(Step(c, es[0]), es[1..], e);
    }
  }

  // ---------------------------------------------------------------- runs that keep time

  /**
   The connection and its clock: when each armed timer is due, and by when the request out is answered, for its
   own timeout aborts it then.
   */
  datatype Clocked = Clocked(c: Conn, now: int, due: map<nat, int>, answerBy: int)

  datatype Moment = Moment(at: int, event: Event)

  ghost function Armed(c: Conn): set<nat> { c.polls.Keys + c.reconnects }

  /** Timer `t` goes off just when it is due; of those due at once, the first armed goes first. */
  ghost predicate GoesOff(k: Clocked, t: nat, at: int) {
    t in k.due && k.due[t] == at && forall u | u in k.due && k.due[u] == at :: t <= u
  }

  /** The event can come at that instant: no timer is overdue by then, and no answer. */
  ghost predicate InTime(k: Clocked, m: Moment) {
    && Enabled(k.c, m.event) && k.now <= m.at
    && (forall t | t in k.due :: m.at <= k.due[t])
    && (k.c.requests > 0 ==> m.at <= k.answerBy)
    && (m.event.PollDue? ==> GoesOff(k, m.event.timer, m.at))
    && (m.event.ReconnectDue? ==> GoesOff(k, m.event.timer, m.at))
  }

  /** What was armed keeps its due time; what the event arms is due after its own delay. */
  ghost function DueAt(k: Clocked, d: Conn, at: int, t: nat): int {
    if t in k.due && t < k.c.nextId then k.due[t]
    else at + (if t in d.polls then d.polls[t] else POLL_FALLBACK_MS)
  }

  ghost function Tick(k: Clocked, m: Moment): Clocked
    requires InTime(k, m)
  {
    var d := Step(k.c, m.event);
    Clocked(d, m.at, map t | t in Armed(d) :: DueAt(k, d, m.at, t),
            if d.requests > k.c.requests then m.at + FETCH_TIMEOUT_MS else k.answerBy)
  }

  ghost function StartClock(throws: bool): Clocked {
    var c := Connect(throws);
    Clocked(c, 0, map t | t in Armed(c) :: POLL_FALLBACK_MS, 0)
  }

  /** Where a run of moments leads, if each comes in time. */
  ghost function After(k: Clocked, ms: seq<Moment>): Option<Clocked> {
    if ms == [] then Some(k)
    else
      var before := After(k, ms[..|ms| - 1]);
      if before.Some? && InTime(before.value, ms[|ms| - 1]) then Some(Tick(before.value, ms[|ms| - 1])) else None
  }

  ghost function Events(ms: seq<Moment>): seq<Event> {
    if ms == [] then [] else Events(ms[..|ms| - 1]) + [ms[|ms| - 1].event]
  }

  /** A run that keeps time is a run, so it keeps all that every run keeps. */
  lemma {:induction false} TimedRunsAreRuns(throws: bool, ms: seq<Moment>)
    requires After(StartClock(throws), ms).Some?
    ensures Runs(Connect(throws), Events(ms))
      && End(Connect(throws), Events(ms)) == After(StartClock(throws), ms).value.c
    ensures Safe(After(StartClock(throws), ms).value.c)
  {
    if ms != [] {
      var front, m := ms[..|ms| - 1], ms[|ms| - 1];
      TimedRunsAreRuns(throws, front);
      OneMoreStep(Connect(throws), Events(front), m.event);
    }
    EveryRunIsSafe(throws, Events(ms));
  }

  ghost predicate Reaches(k: Clocked, j: Clocked) {
    exists ms :: After(k, ms) == Some(j)
  }

  lemma {:induction false} AfterMore(k: Clocked, a: seq<Moment>, b: seq<Moment>)
    requires After(k, a).Some?
    ensures After(k, a + b) == After(After(k, a).value, b)
  {
    if b == [] {
      assert a + b == a;
    } else {
      assert (a + b)[..|a + b| - 1] == a + b[..|b| - 1];
      AfterMore(k, a, b[..|b| - 1]);
    }
  }

  lemma {:induction false} ReachesOn(k: Clocked, j: Clocked, i: Clocked)
    requires Reaches(k, j) && Reaches(j, i)
    ensures Reaches(k, i)
  {
    var a :| After(k, a) == Some(j);
    var b :| After(j, b) == Some(i);
    AfterMore(k, a, b);
    assert After(k, a + b) == Some(i);
  }

  lemma {:induction false} ReachesTick(k: Clocked, m: Moment)
    requires InTime(k, m)
    ensures Reaches(k, Tick(k, m))
  {
    assert [m][..0] == [];
    assert After(k, []) == Some(k);
    assert After(k, [m]) == Some(Tick(k, m));
  }

  lemma {:induction false} ReachesItself(k: Clocked)
    ensures Reaches(k, k)
  {
    assert After(k, []) == Some(k);
  }

  /** Still open for business, with every armed timer's due time known and its handle used once. */
  ghost predicate Kept(k: Clocked) {
    && !k.c.closed && k.due.Keys == Armed(k.c) && k.c.polls.Keys !! k.c.reconnects
    && (forall t | t in k.due :: t < k.c.nextId)
    && k.c.requests == if k.c.pollInFlight then 1 else 0
  }

  /** The armed timers are those of `rest`, each due when that says, and a `bunch` due together. */
  ghost predicate DueAre(due: map<nat, int>, rest: map<nat, int>, bunch: set<nat>, together: int) {
    && due.Keys == rest.Keys + bunch && rest.Keys !! bunch
    && (forall t | t in rest :: due[t] == rest[t])
    && (forall t | t in bunch :: due[t] == together)
  }

  ghost predicate NoneBefore(rest: map<nat, int>, together: int, at: int) {
    at <= together && forall t | t in rest :: at <= rest[t]
  }

  lemma {:induction false} DueAdds(due: map<nat, int>, next: map<nat, int>, rest: map<nat, int>, bunch: set<nat>,
        together: int, n: nat)
    requires DueAre(due, rest, bunch, together) && n !in due && next.Keys == due.Keys + {n}
    requires forall t | t in due :: next[t] == due[t]
    ensures n !in rest && n !in bunch && DueAre(next, rest[n := next[n]], bunch, together)
  {}

  lemma {:induction false} DueDrops(due: map<nat, int>, next: map<nat, int>, rest: map<nat, int>, bunch: set<nat>,
        together: int, n: nat)
    requires DueAre(due, rest, bunch, together) && n in due && next.Keys == due.Keys - {n}
    requires forall t | t in next :: next[t] == due[t]
    ensures DueAre(next, rest - {n}, bunch - {n}, together)
  {}

  /** The armed timers the connection can wait for until `at`, and the answer it waits for, if any. */
  ghost predicate Waits(k: Clocked, rest: map<nat, int>, bunch: set<nat>, together: int, at: int) {
    && Kept(k) && DueAre(k.due, rest, bunch, together) && NoneBefore(rest, together, at) && k.now <= at
    && (k.c.pollInFlight ==> at <= k.answerBy)
  }

  ghost predicate AsksAs(c: Conn, d: Conn, t: nat) {
    d == c.(polls := c.polls - {t}, pollInFlight := true, requests := 1)
  }

  lemma {:induction false} AskingStep(c: Conn, t: nat)
    requires !c.closed && !c.pollInFlight && c.requests == 0 && t in c.polls
    ensures AsksAs(c, Step(c, PollDue(t)), t)
  {}

  lemma {:induction false} AskingKeeps(k: Clocked, m: Moment, t: nat)
    requires InTime(k, m) && Kept(k) && !k.c.pollInFlight && t in k.c.polls && AsksAs(k.c, Step(k.c, m.event), t)
    ensures var j := Tick(k, m);
            && Kept(j) && j.now == m.at && j.answerBy == m.at + FETCH_TIMEOUT_MS && j.due.Keys == k.due.Keys - {t}
            && forall u | u in j.due :: j.due[u] == k.due[u]
  {}

  /** A poll timer goes off with no request out: it asks. */
  lemma {:induction false} Asks(k: Clocked, rest: map<nat, int>, bunch: set<nat>, together: int, t: nat, at: int)
    returns (j: Clocked)
    requires Waits(k, rest, bunch, together, at) && !k.c.pollInFlight && t in k.c.polls && GoesOff(k, t, at)
    ensures Reaches(k, j) && Kept(j) && j.now == at && j.answerBy == at + FETCH_TIMEOUT_MS && AsksAs(k.c, j.c, t)
    ensures DueAre(j.due, rest - {t}, bunch - {t}, together)
  {
    var m := Moment(at, PollDue(t));
    ReachesTick(k, m);
    AskingStep(k.c, t);
    AskingKeeps(k, m, t);
    j := Tick(k, m);
    DueDrops(k.due, j.due, rest, bunch, together, t);
  }

  ghost predicate Arms(c: Conn, d: Conn, failures: nat, delay: int) {
    && d.polls == c.polls[c.nextId := delay] && d.pollTimer == Some(c.nextId) && d.nextId == c.nextId + 1
    && !d.pollInFlight && d.requests == 0 && d.pollFailures == failures
    && d.sockets == c.sockets && d.reconnects == c.reconnects && !d.closed
  }

  lemma {:induction false} FailingStep(c: Conn)
    requires !c.closed && c.requests == 1
    ensures Arms(c, Step(c, Reply(Failed, false)), c.pollFailures + 1, NextPollDelay(c.pollFailures + 1))
  {}

  lemma {:induction false} SucceedingStep(c: Conn)
    requires !c.closed && c.requests == 1
    ensures Arms(c, Step(c, Reply(Rows, false)), 0, POLL_FALLBACK_MS)
  {}

  lemma {:induction false} ArmingKeeps(k: Clocked, m: Moment, failures: nat, delay: int)
    requires InTime(k, m) && Kept(k) && Arms(k.c, Step(k.c, m.event), failures, delay)
    ensures var j := Tick(k, m);
            && Kept(j) && j.now == m.at && k.c.nextId !in k.due && j.due.Keys == k.due.Keys + {k.c.nextId}
            && j.due[k.c.nextId] == m.at + delay && forall u | u in k.due :: j.due[u] == k.due[u]
  {
    assert k.c.nextId !in k.due;
  }

  /** The request ends: a timer by the new count of failures. */
  lemma {:induction false} Ends(k: Clocked, rest: map<nat, int>, bunch: set<nat>, together: int, m: Moment,
        failures: nat, delay: int) returns (j: Clocked)
    requires InTime(k, m) && Kept(k) && DueAre(k.due, rest, bunch, together)
      && Arms(k.c, Step(k.c, m.event), failures, delay)
    ensures Reaches(k, j) && Kept(j) && j.now == m.at && Arms(k.c, j.c, failures, delay)
    ensures k.c.nextId !in rest && k.c.nextId !in bunch
    ensures DueAre(j.due, rest[k.c.nextId := m.at + delay], bunch, together)
  {
    ReachesTick(k, m);
    ArmingKeeps(k, m, failures, delay);
    j := Tick(k, m);
    DueAdds(k.due, j.due, rest, bunch, together, k.c.nextId);
  }

  lemma {:induction false} Fails(k: Clocked, rest: map<nat, int>, bunch: set<nat>, together: int, at: int, delay: int)
    returns (j: Clocked)
    requires Waits(k, rest, bunch, together, at) && k.c.pollInFlight && delay == NextPollDelay(k.c.pollFailures + 1)
    ensures Reaches(k, j) && Kept(j) && j.now == at && Arms(k.c, j.c, k.c.pollFailures + 1, delay)
    ensures k.c.nextId !in rest && k.c.nextId !in bunch
    ensures DueAre(j.due, rest[k.c.nextId := at + delay], bunch, together)
  {
    FailingStep(k.c);
    j := Ends(k, rest, bunch, together, Moment(at, Reply(Failed, false)), k.c.pollFailures + 1, delay);
  }

  lemma {:induction false} Succeeds(k: Clocked, rest: map<nat, int>, bunch: set<nat>, together: int, at: int)
    returns (j: Clocked)
    requires Waits(k, rest, bunch, together, at) && k.c.pollInFlight
    ensures Reaches(k, j) && Kept(j) && j.now == at && Arms(k.c, j.c, 0, POLL_FALLBACK_MS)
    ensures k.c.nextId !in rest && k.c.nextId !in bunch
    ensures DueAre(j.due, rest[k.c.nextId := at + POLL_FALLBACK_MS], bunch, together)
  {
    SucceedingStep(k.c);
    j := Ends(k, rest, bunch, together, Moment(at, Reply(Rows, false)), 0, POLL_FALLBACK_MS);
  }

  ghost predicate OpensAs(c: Conn, d: Conn) {
    && d.polls == c.polls && d.pollTimer.None? && d.pollFailures == 0 && d.pollInFlight == c.pollInFlight && !d.closed
    && d.requests == c.requests && d.sockets == c.sockets && d.reconnects == c.reconnects && d.nextId == c.nextId
  }

  lemma {:induction false} OpeningStep(c: Conn, socket: nat)
    requires !c.closed && socket in c.sockets && (c.pollTimer.Some? ==> c.pollTimer.value !in c.polls)
    ensures OpensAs(c, Step(c, Opened(socket, false)))
  {
    assert c.pollTimer.Some? ==> c.polls - {c.pollTimer.value} == c.polls;
  }

  /** The socket opens while the remembered timer has gone off: nothing is cleared. */
  lemma {:induction false} Opens(k: Clocked, rest: map<nat, int>, bunch: set<nat>, together: int, socket: nat, at: int)
    returns (j: Clocked)
    requires Waits(k, rest, bunch, together, at) && socket in k.c.sockets
    requires k.c.pollTimer.Some? ==> k.c.pollTimer.value !in k.c.polls
    ensures Reaches(k, j) && Kept(j) && j.now == at && j.answerBy == k.answerBy && j.due == k.due && OpensAs(k.c, j.c)
  {
    var m := Moment(at, Opened(socket, false));
    ReachesTick(k, m);
    OpeningStep(k.c, socket);
    j := Tick(k, m);
  }

  ghost predicate ClosesAs(c: Conn, d: Conn) {
    && d.polls == c.polls[c.nextId := POLL_FALLBACK_MS] && d.nextId == c.nextId + 2 && d.pollInFlight
       && d.requests == c.requests
    && d.pollFailures == 0 && d.sockets == {} && d.reconnects == {c.nextId + 1} && !d.closed
  }

  lemma {:induction false} ClosingStep(c: Conn, socket: nat)
    requires !c.closed && c.sockets == {socket} && c.reconnects == {} && c.pollInFlight && c.pollTimer.None?
      && c.pollFailures == 0
    ensures ClosesAs(c, Step(c, Closed(socket, false)))
  {}

  lemma {:induction false} ClosingKeeps(k: Clocked, m: Moment)
    requires InTime(k, m) && Kept(k) && k.c.reconnects == {} && k.c.pollInFlight && ClosesAs(k.c, Step(k.c, m.event))
    ensures var j, n := Tick(k, m), k.c.nextId;
            && Kept(j) && j.now == m.at && j.answerBy == k.answerBy && n !in k.due && n + 1 !in k.due
            && j.due.Keys == k.due.Keys + {n} + {n + 1} && j.due[n] == m.at + POLL_FALLBACK_MS
            && j.due[n + 1] == m.at + POLL_FALLBACK_MS && forall u | u in k.due :: j.due[u] == k.due[u]
  {
    assert k.c.nextId !in k.due && k.c.nextId + 1 !in k.due;
  }

  lemma {:induction false} TwoArmed(due: map<nat, int>, next: map<nat, int>, bunch: set<nat>, together: int, n: nat,
        x: int)
    requires DueAre(due, map[], bunch, together) && n !in due && n + 1 !in due && next.Keys == due.Keys + {n} + {n + 1}
    requires next[n] == x && next[n + 1] == x && forall t | t in due :: next[t] == due[t]
    ensures n !in bunch && n + 1 !in bunch && DueAre(next, map[n := x][n + 1 := x], bunch, together)
  {}

  /**
   The socket closes with a request out and no timer remembered: it arms a poll timer, and then the reconnect timer.
   */
  lemma {:induction false} Closes(k: Clocked, bunch: set<nat>, together: int, socket: nat, at: int, n: nat, x: int)
    returns (j: Clocked)
    requires Waits(k, map[], bunch, together, at) && k.c.pollInFlight && k.c.sockets == {socket} && k.c.reconnects == {}
    requires k.c.pollTimer.None? && k.c.pollFailures == 0 && n == k.c.nextId && x == at + POLL_FALLBACK_MS
    ensures Reaches(k, j) && Kept(j) && j.now == at && j.answerBy == k.answerBy && ClosesAs(k.c, j.c)
    ensures DueAre(j.due, map[n := x][n + 1 := x], bunch, together)
  {
    var m := Moment(at, Closed(socket, false));
    ReachesTick(k, m);
    ClosingStep(k.c, socket);
    ClosingKeeps(k, m);
    j := Tick(k, m);
    TwoArmed(k.due, j.due, bunch, together, n, x);
  }

  ghost predicate RedialsAs(c: Conn, d: Conn) {
    d == c.(reconnects := {}, sockets := {c.nextId}, ws := Some(c.nextId), nextId := c.nextId + 1)
  }

  lemma {:induction false} RedialingStep(c: Conn, r: nat)
    requires !c.closed && c.reconnects == {r} && c.sockets == {}
    ensures RedialsAs(c, Step(c, ReconnectDue(r, false)))
  {
    assert c.reconnects - {r} == {};
  }

  lemma {:induction false} RedialingKeeps(k: Clocked, m: Moment, r: nat)
    requires InTime(k, m) && Kept(k) && k.c.reconnects == {r} && RedialsAs(k.c, Step(k.c, m.event))
    ensures var j := Tick(k, m);
            && Kept(j) && j.now == m.at && j.answerBy == k.answerBy && j.due.Keys == k.due.Keys - {r}
            && forall u | u in j.due :: j.due[u] == k.due[u]
  {}

  /** The reconnect timer goes off: a new socket. */
  lemma {:induction false} Redials(k: Clocked, rest: map<nat, int>, bunch: set<nat>, together: int, r: nat, at: int)
    returns (j: Clocked)
    requires Waits(k, rest, bunch, together, at) && k.c.reconnects == {r} && k.c.sockets == {} && GoesOff(k, r, at)
    ensures Reaches(k, j) && Kept(j) && j.now == at && j.answerBy == k.answerBy && RedialsAs(k.c, j.c)
    ensures DueAre(j.due, rest - {r}, bunch - {r}, together)
  {
    var m := Moment(at, ReconnectDue(r, false));
    ReachesTick(k, m);
    RedialingStep(k.c, r);
    RedialingKeeps(k, m, r);
    j := Tick(k, m);
    DueDrops(k.due, j.due, rest, bunch, together, r);
  }

  lemma {:induction false} FirstOf(bunch: set<nat>) returns (t: nat)
    requires bunch != {}
    ensures t in bunch && forall u | u in bunch :: t <= u
  {
    var some :| some in bunch;
    t := some;
    if bunch != {some} {
      assert bunch - {some} != {};
      var first := FirstOf(bunch - {some});
      if first < some { t := first; }
      assert forall u | u in bunch :: u == some || u in bunch - {some};
    }
  }

  ghost predicate Quiet(k: Clocked) {
    Kept(k) && !k.c.pollInFlight && k.c.pollFailures >= 3
  }

  /** Nothing but polling happened: the same sockets, and every timer of `rest` still armed for polling that was. */
  ghost predicate OnlyPolled(k: Clocked, j: Clocked, rest: map<nat, int>) {
    && j.c.sockets == k.c.sockets && j.c.reconnects == k.c.reconnects
    && (forall t | t in rest && t in k.c.polls :: t in j.c.polls)
  }

  /** A bunch of timers due together, and the others due after them. */
  ghost predicate Gathered(k: Clocked, rest: map<nat, int>, bunch: set<nat>, at: int) {
    && Quiet(k) && k.now <= at && DueAre(k.due, rest, bunch, at) && bunch <= k.c.polls.Keys
    && forall t | t in rest :: at < rest[t]
  }

  ghost predicate Gone(k: Clocked, j: Clocked, rest: map<nat, int>, again: set<nat>, at: int, late: int) {
    && Quiet(j) && j.now <= at && DueAre(j.due, rest, again, late) && again <= j.c.polls.Keys && OnlyPolled(k, j, rest)
  }

  /** A bunch of timers goes off and every request fails at once: two minutes later the bunch is due together again. */
  lemma {:induction false} BunchTurns(k: Clocked, rest: map<nat, int>, bunch: set<nat>, at: int, late: int)
    returns (j: Clocked, again: set<nat>)
    requires Gathered(k, rest, bunch, at) && late == at + BACKOFF_CAP_MS
    ensures Reaches(k, j) && Gone(k, j, rest, again, at, late) && |again| == |bunch|
    decreases |bunch|
  {
    if bunch == {} {
      j, again := k, {};
      ReachesItself(k);
    } else {
      var one, n, t := OneTurns(k, rest, bunch, at, late);
      var others;
      j, others := BunchTurns(one, rest[n := late], bunch - {t}, at, late);
      ReachesOn(k, one, j);
      again := others + {n};
      OneMoreGone(k, one, j, rest, others, n, at, late);
    }
  }

  lemma {:induction false} OneMoreGone(k: Clocked, one: Clocked, j: Clocked, rest: map<nat, int>, others: set<nat>,
                                       n: nat, at: int, late: int)
    requires OnlyPolled(k, one, rest) && n !in rest && n in one.c.polls
    requires Gone(one, j, rest[n := late], others, at, late)
    ensures Gone(k, j, rest, others + {n}, at, late) && |others + {n}| == |others| + 1
  {
    Regathers(j.due, rest, others, late, n);
    assert n in rest[n := late];
    assert forall t | t in rest :: t in rest[n := late];
  }

  lemma {:induction false} Regathers(due: map<nat, int>, rest: map<nat, int>, others: set<nat>, together: int, n: nat)
    requires n !in rest && DueAre(due, rest[n := together], others, together)
    ensures DueAre(due, rest, others + {n}, together) && n !in others && |others + {n}| == |others| + 1
  {
    var all := rest[n := together];
    assert n in all && all[n] == together;
    assert forall t | t in rest :: t in all && all[t] == rest[t];
    assert due.Keys == rest.Keys + (others + {n});
  }

  lemma {:induction false} OneTurns(k: Clocked, rest: map<nat, int>, bunch: set<nat>, at: int, late: int)
    returns (j: Clocked, n: nat, t: nat)
    requires Gathered(k, rest, bunch, at) && bunch != {} && late == at + BACKOFF_CAP_MS
    ensures Reaches(k, j) && Gathered(j, rest[n := late], bunch - {t}, at) && t in bunch && |bunch - {t}| == |bunch| - 1
    ensures n !in rest && n in j.c.polls && OnlyPolled(k, j, rest)
  {
    t := FirstOf(bunch);
    FirstGoesOff(k, rest, bunch, at, t);
    var asked := Asks(k, rest, bunch, at, t, at);
    n := k.c.nextId;
    j := FailsAgain(asked, rest, bunch - {t}, at, n, late);
    ReachesOn(k, asked, j);
    FewerGathered(k, asked.c, j, rest, bunch, t, n, at, late);
  }

  lemma {:induction false} FirstGoesOff(k: Clocked, rest: map<nat, int>, bunch: set<nat>, at: int, t: nat)
    requires Gathered(k, rest, bunch, at) && t in bunch && forall u | u in bunch :: t <= u
    ensures Waits(k, rest, bunch, at, at) && GoesOff(k, t, at) && rest - {t} == rest
  {}

  lemma {:induction false} FailsAgain(k: Clocked, rest: map<nat, int>, bunch: set<nat>, at: int, n: nat, late: int)
    returns (j: Clocked)
    requires Kept(k) && k.now == at && at <= k.answerBy && k.c.pollInFlight && k.c.pollFailures >= 3
    requires n == k.c.nextId && late == at + BACKOFF_CAP_MS
    requires DueAre(k.due, rest, bunch, at) && forall t | t in rest :: at < rest[t]
    ensures Reaches(k, j) && Kept(j) && j.now == at && Arms(k.c, j.c, k.c.pollFailures + 1, BACKOFF_CAP_MS)
    ensures n !in rest && n !in bunch && DueAre(j.due, rest[n := late], bunch, at)
  {
    BackoffDoublesToTheCap(k.c.pollFailures + 1);
    j := Fails(k, rest, bunch, at, at, BACKOFF_CAP_MS);
  }

  lemma {:induction false} FewerGathered(k: Clocked, asked: Conn, j: Clocked, rest: map<nat, int>, bunch: set<nat>,
                                         t: nat, n: nat, at: int, late: int)
    requires Gathered(k, rest, bunch, at) && t in bunch && AsksAs(k.c, asked, t) && n == asked.nextId && at < late
    requires Kept(j) && j.now == at && Arms(asked, j.c, asked.pollFailures + 1, BACKOFF_CAP_MS) && n !in rest
    requires DueAre(j.due, rest[n := late], bunch - {t}, at)
    ensures Gathered(j, rest[n := late], bunch - {t}, at) && n in j.c.polls && OnlyPolled(k, j, rest)
  {}

  /**
   Down, dialling, no request out: one timer due at `t0`, and a bunch of `n` forgotten ones due together a
   minute later.
   */
  ghost predicate Crowd(k: Clocked, socket: nat, loner: nat, t0: int, bunch: set<nat>) {
    && Kept(k) && k.now <= t0 && !k.c.pollInFlight && k.c.sockets == {socket} && k.c.reconnects == {}
    && loner in k.c.polls && bunch <= k.c.polls.Keys && DueAre(k.due, map[loner := t0], bunch, t0 + 60000)
  }

  /** The socket opens and closes again while a request is out and the remembered timer has gone off. */
  ghost predicate Flapped(k: Clocked, t0: int, bunch: set<nat>, y: nat) {
    && Kept(k) && k.now == t0 + 28000 && k.answerBy == t0 + 30000 && k.c.pollInFlight && k.c.pollFailures == 0
    && k.c.sockets == {} && k.c.reconnects == {y + 1} && y in k.c.polls && bunch <= k.c.polls.Keys
    && DueAre(k.due, map[y := t0 + 43000][y + 1 := t0 + 43000], bunch, t0 + 60000)
  }

  ghost predicate Earliest(rest: map<nat, int>, t: nat, at: int) {
    t in rest && rest[t] == at && forall u | u in rest && u != t :: at < rest[u] || (at == rest[u] && t < u)
  }

  /** The first of the timers apart goes off before the bunch does. */
  lemma {:induction false} FirstApart(k: Clocked, rest: map<nat, int>, bunch: set<nat>, together: int, t: nat, at: int)
    requires DueAre(k.due, rest, bunch, together) && at < together && Earliest(rest, t, at)
    ensures GoesOff(k, t, at) && NoneBefore(rest, together, at) && t !in bunch && bunch - {t} == bunch
  {
    forall u | u in k.due && k.due[u] == at ensures t <= u {
      assert u in rest;
    }
  }

  lemma {:induction false} FirstAsks(k: Clocked, rest: map<nat, int>, bunch: set<nat>, together: int, t: nat, at: int)
    returns (j: Clocked)
    requires Kept(k) && DueAre(k.due, rest, bunch, together) && k.now <= at < together && Earliest(rest, t, at)
    requires !k.c.pollInFlight && t in k.c.polls
    ensures Reaches(k, j) && Kept(j) && j.now == at && j.answerBy == at + FETCH_TIMEOUT_MS && AsksAs(k.c, j.c, t)
    ensures DueAre(j.due, rest - {t}, bunch, together) && t !in bunch
  {
    FirstApart(k, rest, bunch, together, t, at);
    j := Asks(k, rest, bunch, together, t, at);
  }

  lemma {:induction false} FirstRedials(k: Clocked, rest: map<nat, int>, bunch: set<nat>, together: int, r: nat,
        at: int) returns (j: Clocked)
    requires Kept(k) && DueAre(k.due, rest, bunch, together) && k.now <= at < together && Earliest(rest, r, at)
    requires k.c.reconnects == {r} && k.c.sockets == {} && (k.c.pollInFlight ==> at <= k.answerBy)
    ensures Reaches(k, j) && Kept(j) && j.now == at && j.answerBy == k.answerBy && RedialsAs(k.c, j.c)
    ensures DueAre(j.due, rest - {r}, bunch, together)
  {
    FirstApart(k, rest, bunch, together, r, at);
    j := Redials(k, rest, bunch, together, r, at);
  }

  lemma {:induction false} OneOnly(l: nat, x: int)
    ensures map[][l := x] == map[l := x] && map[l := x] - {l} == map[]
  {}

  lemma {:induction false} TwoOnly(a: nat, x: int, b: nat, y: int)
    requires a != b
    ensures map[a := x][b := y] - {a} == map[b := y] && map[a := x][b := y] - {b} == map[a := x]
  {}

  lemma {:induction false} AnsweredAndAskedAgain(k: Clocked, socket: nat, loner: nat, t0: int, bunch: set<nat>)
    returns (j: Clocked)
    requires Crowd(k, socket, loner, t0, bunch)
    ensures Reaches(k, j) && Kept(j) && j.now == t0 + 20000 && j.answerBy == t0 + 30000 && j.c.pollInFlight
    ensures j.c.sockets == {socket} && j.c.reconnects == {} && bunch <= j.c.polls.Keys
    ensures j.c.pollTimer.Some? && j.c.pollTimer.value !in j.c.polls && DueAre(j.due, map[], bunch, t0 + 60000)
  {
    var late := t0 + 60000;
    var k1 := FirstAsks(k, map[loner := t0], bunch, late, loner, t0);
    OneOnly(loner, t0);
    var k2 := Succeeds(k1, map[], bunch, late, t0 + 5000);
    var l := k1.c.nextId;
    OneOnly(l, t0 + 20000);
    j := FirstAsks(k2, map[l := t0 + 20000], bunch, late, l, t0 + 20000);
    ReachesOn(k, k1, k2);
    ReachesOn(k, k2, j);
  }

  lemma {:induction false} Flaps(k: Clocked, socket: nat, loner: nat, t0: int, bunch: set<nat>)
    returns (j: Clocked, y: nat)
    requires Crowd(k, socket, loner, t0, bunch)
    ensures Reaches(k, j) && Flapped(j, t0, bunch, y)
  {
    var k3 := AnsweredAndAskedAgain(k, socket, loner, t0, bunch);
    j, y := OpensAndCloses(k3, socket, t0, bunch);
    ReachesOn(k, k3, j);
  }

  lemma {:induction false} OpensAndCloses(k: Clocked, socket: nat, t0: int, bunch: set<nat>)
    returns (j: Clocked, y: nat)
    requires Kept(k) && k.now == t0 + 20000 && k.answerBy == t0 + 30000 && k.c.pollInFlight
    requires k.c.sockets == {socket} && k.c.reconnects == {} && bunch <= k.c.polls.Keys
    requires k.c.pollTimer.Some? && k.c.pollTimer.value !in k.c.polls && DueAre(k.due, map[], bunch, t0 + 60000)
    ensures Reaches(k, j) && Flapped(j, t0, bunch, y)
  {
    assert NoneBefore(map[], t0 + 60000, t0 + 21000);
    var k4 := Opens(k, map[], bunch, t0 + 60000, socket, t0 + 21000);
    j, y := ClosesAgain(k4, socket, t0, bunch);
    ReachesOn(k, k4, j);
  }

  lemma {:induction false} ClosesAgain(k: Clocked, socket: nat, t0: int, bunch: set<nat>) returns (j: Clocked, y: nat)
    requires Kept(k) && k.now == t0 + 21000 && k.answerBy == t0 + 30000 && k.c.pollInFlight && k.c.pollFailures == 0
    requires k.c.sockets == {socket} && k.c.reconnects == {} && bunch <= k.c.polls.Keys
    requires k.c.pollTimer.None? && DueAre(k.due, map[], bunch, t0 + 60000)
    ensures Reaches(k, j) && Flapped(j, t0, bunch, y)
  {
    assert NoneBefore(map[], t0 + 60000, t0 + 28000);
    y := k.c.nextId;
    j := Closes(k, bunch, t0 + 60000, socket, t0 + 28000, y, t0 + 43000);
    ClosedFlaps(k.c, j, t0, bunch, y);
  }

  lemma {:induction false} ClosedFlaps(c: Conn, j: Clocked, t0: int, bunch: set<nat>, y: nat)
    requires y == c.nextId && ClosesAs(c, j.c) && Kept(j) && j.now == t0 + 28000 && j.answerBy == t0 + 30000
      && bunch <= c.polls.Keys
    requires DueAre(j.due, map[y := t0 + 43000][y + 1 := t0 + 43000], bunch, t0 + 60000)
    ensures Flapped(j, t0, bunch, y)
  {}

  /** The answers out and to come all fail: two timers where there was one, and the next socket dialled. */
  ghost predicate Doubled(k: Clocked, t0: int, bunch: set<nat>, a: nat, b: nat) {
    && Kept(k) && k.now == t0 + 60000 && !k.c.pollInFlight && k.c.pollFailures == 3 && OneSocket(k.c)
       && k.c.reconnects == {}
    && a != b && a in k.c.polls && b in k.c.polls && bunch <= k.c.polls.Keys
    && DueAre(k.due, map[b := t0 + 112000][a := t0 + 180000], bunch, t0 + 60000)
  }

  ghost predicate OneSocket(c: Conn) { exists s :: c.sockets == {s} }

  /** The request out has failed, and the timer of the close asks. */
  lemma {:induction false} FailsAndAsks(k: Clocked, t0: int, bunch: set<nat>, y: nat) returns (j: Clocked, a: nat)
    requires Flapped(k, t0, bunch, y)
    ensures Reaches(k, j) && Kept(j) && j.now == t0 + 43000 && j.answerBy == t0 + 53000 && j.c.pollInFlight
      && j.c.pollFailures == 1
    ensures j.c.sockets == {} && j.c.reconnects == {y + 1} && a in j.c.polls && bunch <= j.c.polls.Keys && a > y + 1
    ensures DueAre(j.due, map[y + 1 := t0 + 43000][a := t0 + 59000], bunch, t0 + 60000)
  {
    var k1;
    k1, a := FailsFirst(k, t0, bunch, y);
    j := AsksSecond(k1, t0, bunch, y, a);
    ReachesOn(k, k1, j);
  }

  lemma {:induction false} FailsFirst(k: Clocked, t0: int, bunch: set<nat>, y: nat) returns (j: Clocked, a: nat)
    requires Flapped(k, t0, bunch, y)
    ensures Reaches(k, j) && Kept(j) && j.now == t0 + 29000 && !j.c.pollInFlight && j.c.pollFailures == 1
    ensures j.c.sockets == {} && j.c.reconnects == {y + 1} && y in j.c.polls && a in j.c.polls
      && bunch <= j.c.polls.Keys && a > y + 1
    ensures DueAre(j.due, map[y := t0 + 43000][y + 1 := t0 + 43000][a := t0 + 59000], bunch, t0 + 60000)
  {
    var rest := map[y := t0 + 43000][y + 1 := t0 + 43000];
    a := k.c.nextId;
    BackoffDoublesToTheCap(1);
    assert y + 1 in k.due;
    assert NoneBefore(rest, t0 + 60000, t0 + 29000);
    j := Fails(k, rest, bunch, t0 + 60000, t0 + 29000, 30000);
  }

  lemma {:induction false} AsksSecond(k: Clocked, t0: int, bunch: set<nat>, y: nat, a: nat) returns (j: Clocked)
    requires Kept(k) && k.now == t0 + 29000 && !k.c.pollInFlight && k.c.pollFailures == 1
    requires k.c.sockets == {} && k.c.reconnects == {y + 1} && y in k.c.polls && a in k.c.polls
      && bunch <= k.c.polls.Keys && a > y + 1
    requires DueAre(k.due, map[y := t0 + 43000][y + 1 := t0 + 43000][a := t0 + 59000], bunch, t0 + 60000)
    ensures Reaches(k, j) && Kept(j) && j.now == t0 + 43000 && j.answerBy == t0 + 53000 && j.c.pollInFlight
      && j.c.pollFailures == 1
    ensures j.c.sockets == {} && j.c.reconnects == {y + 1} && a in j.c.polls && bunch <= j.c.polls.Keys
    ensures DueAre(j.due, map[y + 1 := t0 + 43000][a := t0 + 59000], bunch, t0 + 60000)
  {
    FirstOfThree(y, y + 1, a, t0 + 43000, t0 + 59000);
    j := FirstAsks(k, map[y := t0 + 43000][y + 1 := t0 + 43000][a := t0 + 59000], bunch, t0 + 60000, y, t0 + 43000);
  }

  lemma {:induction false} FirstOfThree(a: nat, b: nat, c: nat, x: int, z: int)
    requires a < b < c && x < z
    ensures var rest := map[a := x][b := x][c := z]; rest - {a} == map[b := x][c := z] && Earliest(rest, a, x)
  {}

  lemma {:induction false} RedialsAfter(k: Clocked, t0: int, bunch: set<nat>, r: nat, a: nat) returns (j: Clocked)
    requires Kept(k) && k.now == t0 + 43000 && k.answerBy == t0 + 53000 && k.c.pollInFlight && k.c.pollFailures == 1
    requires k.c.sockets == {} && k.c.reconnects == {r} && a in k.c.polls && bunch <= k.c.polls.Keys && a > r
    requires DueAre(k.due, map[r := t0 + 43000][a := t0 + 59000], bunch, t0 + 60000)
    ensures Reaches(k, j) && Kept(j) && j.now == t0 + 43000 && j.answerBy == t0 + 53000 && j.c.pollInFlight
      && j.c.pollFailures == 1
    ensures OneSocket(j.c) && j.c.reconnects == {} && a in j.c.polls && bunch <= j.c.polls.Keys
    ensures DueAre(j.due, map[a := t0 + 59000], bunch, t0 + 60000)
  {
    TwoOnly(r, t0 + 43000, a, t0 + 59000);
    j := FirstRedials(k, map[r := t0 + 43000][a := t0 + 59000], bunch, t0 + 60000, r, t0 + 43000);
    assert j.c.sockets == {k.c.nextId};
  }

  lemma {:induction false} FailsTwice(k: Clocked, t0: int, bunch: set<nat>, first: nat)
    returns (j: Clocked, a: nat, b: nat)
    requires Kept(k) && k.now == t0 + 43000 && k.answerBy == t0 + 53000 && k.c.pollInFlight && k.c.pollFailures == 1
    requires OneSocket(k.c) && k.c.reconnects == {} && first in k.c.polls && bunch <= k.c.polls.Keys
    requires DueAre(k.due, map[first := t0 + 59000], bunch, t0 + 60000)
    ensures Reaches(k, j) && Doubled(j, t0, bunch, a, b)
  {
    var late := t0 + 60000;
    b := k.c.nextId;
    BackoffDoublesToTheCap(2);
    var k2 := Fails(k, map[first := t0 + 59000], bunch, late, t0 + 52000, 60000);
    var rest := map[first := t0 + 59000][b := t0 + 112000];
    var k3 := FirstAsks(k2, rest, bunch, late, first, t0 + 59000);
    TwoOnly(first, t0 + 59000, b, t0 + 112000);
    j, a := ThirdFails(k3, t0, bunch, b);
    ReachesOn(k, k2, k3);
    ReachesOn(k, k3, j);
  }

  lemma {:induction false} ThirdFails(k: Clocked, t0: int, bunch: set<nat>, b: nat) returns (j: Clocked, a: nat)
    requires Kept(k) && k.now == t0 + 59000 && k.answerBy == t0 + 69000 && k.c.pollInFlight && k.c.pollFailures == 2
    requires OneSocket(k.c) && k.c.reconnects == {} && b in k.c.polls && bunch <= k.c.polls.Keys
    requires DueAre(k.due, map[b := t0 + 112000], bunch, t0 + 60000)
    ensures Reaches(k, j) && Doubled(j, t0, bunch, a, b)
  {
    a := k.c.nextId;
    BackoffDoublesToTheCap(3);
    j := Fails(k, map[b := t0 + 112000], bunch, t0 + 60000, t0 + 60000, 120000);
  }

  lemma {:induction false} Doubles(k: Clocked, t0: int, bunch: set<nat>, y: nat) returns (j: Clocked, a: nat, b: nat)
    requires Flapped(k, t0, bunch, y)
    ensures Reaches(k, j) && Doubled(j, t0, bunch, a, b)
  {
    var k1, first := FailsAndAsks(k, t0, bunch, y);
    var k2 := RedialsAfter(k1, t0, bunch, y + 1, first);
    j, a, b := FailsTwice(k2, t0, bunch, first);
    ReachesOn(k, k1, k2);
    ReachesOn(k, k2, j);
  }

  /** The bunch comes round and takes one of the two in. */
  lemma {:induction false} TakesOneIn(k: Clocked, t0: int, bunch: set<nat>, a: nat, b: nat)
    returns (j: Clocked, both: set<nat>)
    requires Doubled(k, t0, bunch, a, b)
    ensures Reaches(k, j) && Quiet(j) && j.now <= t0 + 60000 && OneSocket(j.c) && j.c.reconnects == {} && b in j.c.polls
    ensures both <= j.c.polls.Keys && |both| == |bunch| + 1 && DueAre(j.due, map[b := t0 + 112000], both, t0 + 180000)
  {
    var rest := map[b := t0 + 112000][a := t0 + 180000];
    var turned;
    j, turned := BunchTurns(k, rest, bunch, t0 + 60000, t0 + 180000);
    assert a in rest && b in rest;
    Regathers(j.due, map[b := t0 + 112000], turned, t0 + 180000, a);
    both := turned + {a};
  }

  /** The other asks and fails, and is due two minutes on. */
  lemma {:induction false} OtherGoesOn(k: Clocked, t0: int, both: set<nat>, b: nat) returns (j: Clocked, loner: nat)
    requires Quiet(k) && k.now <= t0 + 60000 && OneSocket(k.c) && k.c.reconnects == {} && b in k.c.polls
    requires both <= k.c.polls.Keys && DueAre(k.due, map[b := t0 + 112000], both, t0 + 180000)
    ensures Reaches(k, j) && Quiet(j) && j.now == t0 + 120000 && OneSocket(j.c) && j.c.reconnects == {}
      && loner in j.c.polls
    ensures both <= j.c.polls.Keys && DueAre(j.due, map[loner := t0 + 240000], both, t0 + 180000)
  {
    var k2 := FirstAsks(k, map[b := t0 + 112000], both, t0 + 180000, b, t0 + 112000);
    OneOnly(b, t0 + 112000);
    loner := k2.c.nextId;
    BackoffDoublesToTheCap(k2.c.pollFailures + 1);
    j := Fails(k2, map[], both, t0 + 180000, t0 + 120000, 120000);
    OneOnly(loner, t0 + 240000);
    ReachesOn(k, k2, j);
  }

  /** And the bunch comes round once more. */
  lemma {:induction false} TakesIn(k: Clocked, t0: int, bunch: set<nat>, a: nat, b: nat)
    returns (j: Clocked, socket: nat, loner: nat, more: set<nat>)
    requires Doubled(k, t0, bunch, a, b)
    ensures Reaches(k, j) && Crowd(j, socket, loner, t0 + 240000, more) && |more| == |bunch| + 1
  {
    var k1, both := TakesOneIn(k, t0, bunch, a, b);
    var k3;
    k3, loner := OtherGoesOn(k1, t0, both, b);
    j, more := BunchTurns(k3, map[loner := t0 + 240000], both, t0 + 180000, t0 + 300000);
    socket :| k3.c.sockets == {socket};
    assert loner in map[loner := t0 + 240000];
    ReachesOn(k, k1, k3);
    ReachesOn(k, k3, j);
  }

  lemma {:induction false} OneMoreChain(k: Clocked, socket: nat, loner: nat, t0: int, bunch: set<nat>)
    returns (j: Clocked, s: nat, l: nat, more: set<nat>)
    requires Crowd(k, socket, loner, t0, bunch)
    ensures Reaches(k, j) && Crowd(j, s, l, t0 + 240000, more) && |more| == |bunch| + 1
  {
    var k1, y := Flaps(k, socket, loner, t0, bunch);
    var k2, a, b := Doubles(k1, t0, bunch, y);
    j, s, l, more := TakesIn(k2, t0, bunch, a, b);
    ReachesOn(k, k1, k2);
    ReachesOn(k, k2, j);
  }

  /** The connection once its first socket has closed. */
  function FirstClosed(): Conn {
    FRESH.(reconnectTimer := Some(1), reconnects := {1}, pollInFlight := true, requests := 1, nextId := 2,
           down := true, log := [Told(Reconnecting)])
  }

  lemma {:induction false} FirstClose() returns (k: Clocked)
    ensures Reaches(StartClock(false), k) && Kept(k) && k.now == 0 && k.answerBy == 10000 && k.due == map[1 := 15000]
    ensures k.c == FirstClosed()
  {
    var k0 := StartClock(false);
    ClockStarts();
    var m := Moment(0, Closed(0, false));
    ReachesTick(k0, m);
    ClosesFirst(k0.c);
    k := Tick(k0, m);
    assert Armed(k.c) == {1};
  }

  lemma {:induction false} ClockStarts()
    ensures StartClock(false) == Clocked(FRESH.(sockets := {0}, ws := Some(0), nextId := 1), 0, map[], 0)
  {
    assert Connect(false).sockets == {0};
  }

  lemma {:induction false} ClosesFirst(c: Conn)
    requires c == FRESH.(sockets := {0}, ws := Some(0), nextId := 1)
    ensures ClosedStep(c, 0, false) == FirstClosed()
  {
    assert c.sockets - {0} == {};
  }

  lemma {:induction false} FirstFailure() returns (k: Clocked)
    ensures Reaches(StartClock(false), k) && Kept(k) && k.now == 1000 && !k.c.pollInFlight && k.c.nextId == 3
    ensures k.c.sockets == {} && k.c.reconnects == {1} && 2 in k.c.polls
    ensures DueAre(k.due, map[1 := 15000][2 := 31000], {}, 91000)
  {
    var k1 := FirstClose();
    BackoffDoublesToTheCap(1);
    k := Fails(k1, map[1 := 15000], {}, 91000, 1000, 30000);
    ReachesOn(StartClock(false), k1, k);
  }

  /** The first socket closes at once; its poll fails a second later, and fifteen seconds on the next is dialled. */
  lemma {:induction false} FirstCrowd() returns (k: Clocked)
    ensures Reaches(StartClock(false), k) && Crowd(k, 3, 2, 31000, {})
  {
    var k2 := FirstFailure();
    TwoOnly(1, 15000, 2, 31000);
    k := FirstRedials(k2, map[1 := 15000][2 := 31000], {}, 91000, 1, 15000);
    ReachesOn(StartClock(false), k2, k);
  }

  lemma {:induction false} CrowdOf(n: nat) returns (k: Clocked, socket: nat, loner: nat, t0: int, bunch: set<nat>)
    ensures Reaches(StartClock(false), k) && Crowd(k, socket, loner, t0, bunch) && |bunch| == n
  {
    if n == 0 {
      k := FirstCrowd();
      socket, loner, t0, bunch := 3, 2, 31000, {};
    } else {
      var before, s, l, t, fewer := CrowdOf(n - 1);
      k, socket, loner, bunch := OneMoreChain(before, s, l, t, fewer);
      t0 := t + 240000;
      ReachesOn(StartClock(false), before, k);
    }
  }

  /**
   The timers polling at once have no bound, even where every
   timer goes off on time and every request ends within its own.
   */
  lemma {:induction false} PollingChainsHaveNoBound(n: nat)
    ensures exists ms :: After(StartClock(false), ms).Some? && !After(StartClock(false), ms).value.c.closed
                         && |After(StartClock(false), ms).value.c.polls.Keys| > n
  {
    var k, socket, loner, t0, bunch := CrowdOf(n);
    var ms :| After(StartClock(false), ms) == Some(k);
    assert loner !in bunch;
    LargerSet(bunch + {loner}, k.c.polls.Keys);
  }

  lemma {:induction false} LargerSet(a: set<nat>, b: set<nat>)
    requires a <= b
    ensures |a| <= |b|
  {
    if a != {} {
      var x :| x in a;
      LargerSet(a - {x}, b - {x});
    }
  }

  /**
   A run that keeps time comes to the state in which chains double:
   the poll timer goes off just before the new socket opens.
   */
  lemma {:induction false} PollingChainsCanDouble()
    ensures exists ms :: After(StartClock(false), ms).Some? &&
              var c := After(StartClock(false), ms).value.c;
                !c.closed && c.sockets == {3} && c.pollInFlight && c.pollTimer.None?
  {
    var k := FirstCrowd();
    var k3 := AnsweredAndAskedAgain(k, 3, 2, 31000, {});
    var k4 := Opens(k3, map[], {}, 91000, 3, 52000);
    ReachesOn(StartClock(false), k, k3);
    ReachesOn(StartClock(false), k3, k4);
    var ms :| After(StartClock(false), ms) == Some(k4);
  }

  // ---------------------------------------------------------------- the connection itself

  /** The closure of `connectLive`, beside the run it belongs to. `nextId` is the browser's supply of handles. */
  class LiveConnection {
    var closed: bool
    var ws: Option<nat>
    var pollTimer: Option<nat>
    var reconnectTimer: Option<nat>
    var pollInFlight: bool
    var pollFailures: nat
    var nextId: nat
    ghost var run: Conn

    ghost predicate Valid()
      reads this
    {
      && run.closed == closed && run.ws == ws && run.pollTimer == pollTimer && run.reconnectTimer == reconnectTimer
      && run.pollInFlight == pollInFlight && run.pollFailures == pollFailures && run.nextId == nextId
    }

    constructor (throws: bool)
      ensures Valid() && run == Connect(throws)
    {
      closed, ws, pollTimer, reconnectTimer, pollInFlight, pollFailures, nextId := false, None, None, None, false, 0, 0;
      run := FRESH;
      new;
      TryOpen(throws);
    }

    method StopPoll()
      requires Valid()
      modifies this
      ensures Valid() && run == StopPolling(old(run))
    {
      run := StopPolling(run);
      pollTimer := None;
      pollFailures := 0;
    }

    method Arm()
      requires Valid()
      modifies this
      ensures Valid() && run == ArmPoll(old(run))
    {
      run := ArmPoll(run);
      pollTimer := Some(nextId);
      nextId := nextId + 1;
    }

    method Poll()
      requires Valid()
      modifies this
      ensures Valid() && run == PollLoop(old(run))
    {
      if closed { return; }
      if pollInFlight {
        Arm();
        return;
      }
      pollInFlight := true;
      run := PollLoop(run);
    }

    method StartPoll()
      requires Valid()
      modifies this
      ensures Valid() && run == StartPolling(old(run))
    {
      if pollTimer.Some? || closed { return; }
      Poll();
    }

    method Schedule()
      requires Valid()
      modifies this
      ensures Valid() && run == ScheduleReconnect(old(run))
    {
      if closed { return; }
      run := ScheduleReconnect(run);
      reconnectTimer := Some(nextId);
      nextId := nextId + 1;
    }

    method TryOpen(throws: bool)
      requires Valid()
      modifies this
      ensures Valid() && run == OpenSocket(old(run), throws)
    {
      if closed { return; }
      if throws {
        Schedule();
        return;
      }
      run := OpenSocket(run, false);
      ws := Some(nextId);
      nextId := nextId + 1;
    }

    method Hang()
      requires Valid()
      modifies this
      ensures Valid() && run == HangUp(old(run))
    {
      if closed { return; }
      run := HangUp(run);
      closed := true;
      pollTimer := None;
      pollFailures := 0;
      ws := None;
    }

    /** Calls a handler, which may disconnect. */
    method Call(o: Output, hangsUp: bool)
      requires Valid()
      modifies this
      ensures Valid() && run == Emit(old(run), o, hangsUp)
    {
      run := run.(log := run.log + [o]);
      if hangsUp { Hang(); }
    }

    method OnOpen(socket: nat, hangsUp: bool)
      requires Valid() && socket in run.sockets
      modifies this
      ensures Valid() && run == Step(old(run), Opened(socket, hangsUp))
    {
      if closed { return; }
      Call(Told(Connected), hangsUp);
      StopPoll();
      run := run.(down := false);
    }

    method OnMessage(socket: nat, parses: bool, hangsUp: bool)
      requires Valid() && socket in run.sockets
      modifies this
      ensures Valid() && run == Step(old(run), Message(socket, parses, hangsUp))
    {
      if closed { return; }
      if parses { Call(Data, hangsUp); }
    }

    method OnClose(socket: nat, hangsUp: bool)
      requires Valid() && socket in run.sockets
      modifies this
      ensures Valid() && run == Step(old(run), Closed(socket, hangsUp))
    {
      run := run.(sockets := run.sockets - {socket});
      if closed { return; }
      ws := None;
      run := run.(ws := None, down := true);
      Call(Told(Reconnecting), hangsUp);
      StartPoll();
      Schedule();
    }

    method OnPollDue(timer: nat)
      requires Valid() && timer in run.polls
      modifies this
      ensures Valid() && run == Step(old(run), PollDue(timer))
    {
      run := run.(polls := run.polls - {timer});
      Poll();
    }

    method OnReply(outcome: Outcome, hangsUp: bool)
      requires Valid() && run.requests > 0
      modifies this
      ensures Valid() && run == Step(old(run), Reply(outcome, hangsUp))
    {
      pollInFlight := false;
      run := run.(pollInFlight := false, requests := run.requests - 1);
      if closed { return; }
      match outcome {
        case Rows =>
          pollFailures := 0;
          run := run.(pollFailures := 0);
          Call(Data, hangsUp);
          Call(Told(PollingFallback), false);
        case RowsThenThrow =>
          pollFailures := 0;
          run := run.(pollFailures := 0);
          Call(Data, hangsUp);
          if !closed {
            pollFailures := pollFailures + 1;
            run := run.(pollFailures := run.pollFailures + 1);
          }
        case Failed =>
          pollFailures := pollFailures + 1;
          run := run.(pollFailures := run.pollFailures + 1);
      }
      if !closed { Arm(); }
    }

    method OnReconnectDue(timer: nat, throws: bool)
      requires Valid() && timer in run.reconnects
      modifies this
      ensures Valid() && run == Step(old(run), ReconnectDue(timer, throws))
    {
      run := run.(reconnects := run.reconnects - {timer});
      TryOpen(throws);
    }
  }
}
