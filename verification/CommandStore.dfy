/**
 Optimistic commands (`src/stores/commandStore.ts`): issue, queue, dispatch, late answers, and
 reconciliation against the live feed.

 One JavaScript turn is one step. A resolved queue entry resumes in a later turn, so a granted command
 may wait while other turns run; the model lets granted commands resume in any order.
 */
module CommandStore {
  import opened Wrappers
  import opened Semaphore

  const MAX_COMMANDS_IN_FLIGHT := 4
  const FAILED_SWEEP_MS := 15000
  const LEAK_GUARD_MS := 30000
  const COMMAND_CONFIRM_MS := 6000
  const COMMAND_TIMEOUT_MS := 5000
  const STALE_AFTER_MS := 30000

  type Socket = n: nat | n == 1 || n == 2 witness 1

  datatype SwitchState = On | Off
  datatype Phase = Sending | Confirming | Failed

  /** Why a command is shown as failed: the three findings of `reconcile`, or a refusal in words. */
  datatype Failure = NeverReached | NotReported | NotHeardSince | Refused(reason: string)

  /** What the feed shows for a target: nothing at all, an unknown state, or a state. */
  datatype Observed = Undefined | Unknown | Is(state: SwitchState)

  /** One issued command; its id is its place in the order of issue. */
  datatype Command = Command(key: string, device: string, socket: Option<Socket>, desired: SwitchState)

  datatype Pending = Pending(
    id: nat, device: string, socket: Option<Socket>, desired: SwitchState, observedBefore: Observed,
    phase: Phase, issuedAt: int, ackedAt: Option<int>, error: Option<Failure>)

  /** A row of the feed. `ts` is none when it does not parse; `online` is none on the totals row. */
  datatype Row = Row(
    device: string, ts: Option<int>, online: Option<bool>, state: Observed, sockets: map<Socket, SwitchState>,
    staleAfterMs: Option<int>)

  function TargetKey(device: string, socket: Option<Socket>): string {
    if socket.None? then device else device + (if socket.value == 1 then ":1" else ":2")
  }

  /** Rows are looked up by device; of two for one device the later wins. */
  function RowFor(rows: seq<Row>, device: string): Option<Row> {
    if rows == [] then None
    else if rows[|rows| - 1].device == device then Some(rows[|rows| - 1])
    else RowFor(rows[..|rows| - 1], device)
  }

  predicate IsTotals(row: Row) { row.device == "_totals" }

  function ObservedIn(row: Row, socket: Option<Socket>): Observed {
    if socket.None? then row.state
    else if socket.value in row.sockets then Is(row.sockets[socket.value]) else Undefined
  }

  /** A row whose timestamp does not parse is never older than its budget. */
  predicate IsStale(row: Row, nowMs: int) {
    row.online == Some(false) || (row.ts.Some? && nowMs - row.ts.value > row.staleAfterMs.GetOr(STALE_AFTER_MS))
  }

  datatype Verdict = Keep | Drop | Fail(error: Failure)

  /** What one frame says about one pending command. */
  function Judge(p: Pending, row: Option<Row>, nowMs: int): Verdict {
    if row.None? || IsTotals(row.value) then Keep
    else
      var observed := ObservedIn(row.value, p.socket);
      if observed.Undefined? then Keep
      else if p.phase.Failed? then (if nowMs - p.issuedAt > FAILED_SWEEP_MS then Drop else Keep)
      else if observed == Is(p.desired) && !IsStale(row.value, nowMs) then Drop
      else if p.ackedAt.None? then (if nowMs - p.issuedAt > LEAK_GUARD_MS then Fail(NeverReached) else Keep)
      else if nowMs - p.ackedAt.value < COMMAND_CONFIRM_MS then Keep
      else Fail(if row.value.ts.Some? && row.value.ts.value >= p.issuedAt then NotReported else NotHeardSince)
  }

  function Reconciled(pending: map<string, Pending>, rows: seq<Row>, nowMs: int): map<string, Pending> {
    map k | k in pending && !Judge(pending[k], RowFor(rows, pending[k].device), nowMs).Drop? ::
      AfterVerdict(pending[k], Judge(pending[k], RowFor(rows, pending[k].device), nowMs))
  }

  function AfterVerdict(p: Pending, v: Verdict): Pending {
    if v.Fail? then p.(phase := Failed, error := Some(v.error)) else p
  }

  // ---------------------------------------------------------------- the protocol as a state machine

  /**
   The store, what the promise runtime holds for it (commands granted a slot and not yet resumed,
   commands sent and not yet answered, commands finished), and the history of issues and sends.
   */
  datatype State = State(
    pending: map<string, Pending>, cloudRecoveries: map<string, int>, inFlight: int, waiting: seq<nat>,
    granted: set<nat>, onWire: set<nat>, finished: set<nat>, issued: seq<Command>, wire: seq<nat>)

  datatype Event =
    | Send(device: string, socket: Option<Socket>, desired: SwitchState, observedBefore: Observed, now: int)
    | Resume(id: nat, now: int)
    | Ack(id: nat, viaCloud: bool, now: int)
    | Reject(id: nat, reason: string)
    | Reconcile(rows: seq<Row>, now: int)
    | Dismiss(key: string)

  const INITIAL := State(map[], map[], 0, [], {}, {}, {}, [], [])

  predicate Current(s: State, id: nat)
    requires id < |s.issued|
  {
    s.issued[id].key in s.pending && s.pending[s.issued[id].key].id == id
  }

  predicate Enabled(s: State, e: Event) {
    match e
    case Resume(id, _) => id in s.granted && id < |s.issued|
    case Ack(id, _, _) => id in s.onWire && id < |s.issued|
    case Reject(id, _) => id in s.onWire && id < |s.issued|
    case _ => true
  }

  /** Give a slot back; the first in line, if any, takes it. */
  function ReleaseSlot(s: State): State {
    if s.waiting == [] then s.(inFlight := s.inFlight - 1)
    else s.(waiting := s.waiting[1..], granted := s.granted + {s.waiting[0]})
  }

  /** A command holding a slot reaches its turn: sent if it is still the one wanted, dropped if not. */
  function Dispatch(s: State, id: nat, now: int): State
    requires id < |s.issued|
  {
    if Current(s, id) then
      var key := s.issued[id].key;
      s.(pending := s.pending[key := s.pending[key].(issuedAt := now)],
         granted := s.granted - {id}, onWire := s.onWire + {id}, wire := s.wire + [id])
    else
      Finish(s, id)
  }

  function Issue(s: State, e: Event): State
    requires e.Send?
  {
    var key := TargetKey(e.device, e.socket);
    s.(issued := s.issued + [Command(key, e.device, e.socket, e.desired)],
       pending := s.pending[key :=
         Pending(|s.issued|, e.device, e.socket, e.desired, e.observedBefore, Sending, e.now, None, None)])
  }

  /** A command holding a slot is done with it, however it ended. */
  function Finish(s: State, id: nat): State {
    ReleaseSlot(s.(granted := s.granted - {id}, onWire := s.onWire - {id}, finished := s.finished + {id}))
  }

  /** A new command is sent at once when a slot is free, and waits its turn otherwise. */
  function SendStep(s: State, e: Event): State
    requires e.Send?
  {
    var id := |s.issued|;
    if s.inFlight < MAX_COMMANDS_IN_FLIGHT then Dispatch(Admit(s, e), id, e.now)
    else Issue(s, e).(waiting := s.waiting + [id])
  }

  function Admit(s: State, e: Event): (t: State)
    requires e.Send?
    ensures |t.issued| == |s.issued| + 1
  {
    Issue(s, e).(inFlight := s.inFlight + 1, granted := s.granted + {|s.issued|})
  }

  /** The answer to a command moves its entry only if the entry is still that command's. */
  function AckStep(s: State, id: nat, viaCloud: bool, now: int): State
    requires id < |s.issued|
  {
    var c := s.issued[id];
    var noted := if viaCloud then s.(cloudRecoveries := s.cloudRecoveries[c.device := now]) else s;
    Finish(if Current(s, id)
           then noted.(pending := s.pending[c.key := s.pending[c.key].(phase := Confirming, ackedAt := Some(now))])
           else noted, id)
  }

  function RejectStep(s: State, id: nat, reason: string): State
    requires id < |s.issued|
  {
    var key := s.issued[id].key;
    Finish(if Current(s, id)
           then s.(pending := s.pending[key := s.pending[key].(phase := Failed, error := Some(Refused(reason)))])
           else s, id)
  }

  function Step(s: State, e: Event): State
    requires Enabled(s, e)
  {
    match e
    case Send(_, _, _, _, _) => SendStep(s, e)
    case Resume(id, now) => Dispatch(s, id, now)
    case Ack(id, viaCloud, now) => AckStep(s, id, viaCloud, now)
    case Reject(id, reason) => RejectStep(s, id, reason)
    case Reconcile(rows, now) => s.(pending := Reconciled(s.pending, rows, now))
    case Dismiss(key) => s.(pending := s.pending - {key})
  }

  ghost predicate Runs(s: State, es: seq<Event>)
    decreases |es|
  {
    es == [] || (Enabled(s, es[0]) && Runs(Step(s, es[0]), es[1..]))
  }

  ghost function End(s: State, es: seq<Event>): State
    requires Runs(s, es)
    decreases |es|
  {
    if es == [] then s else End(Step(s, es[0]), es[1..])
  }

  // ---------------------------------------------------------------- invariant of every run

  ghost function Below(n: int): set<nat> {
    if n <= 0 then {} else Below(n - 1) + {n - 1}
  }

  lemma {:induction false} BelowMembers(n: int)
    ensures forall id: nat :: id in Below(n) <==> id < n
    decreases n
  {
    if n > 0 { BelowMembers(n - 1); }
  }

  ghost function Holders(s: State): set<nat> { s.granted + s.onWire }

  /** Each issued command is in exactly one place; those waiting are the last issued, in order. */
  ghost predicate EachInOnePlace(s: State) {
    && |s.waiting| <= |s.issued|
    && (forall i | 0 <= i < |s.waiting| :: s.waiting[i] == |s.issued| - |s.waiting| + i)
    && s.granted !! s.onWire && Holders(s) !! s.finished
    && Holders(s) + s.finished == Below(|s.issued| - |s.waiting|)
  }

  /** The counter counts the commands holding a slot, never past the cap, and nobody waits below it. */
  ghost predicate SlotsCounted(s: State) {
    && s.inFlight == |Holders(s)| <= MAX_COMMANDS_IN_FLIGHT
    && (s.waiting != [] ==> s.inFlight == MAX_COMMANDS_IN_FLIGHT)
  }

  ghost predicate Placed(s: State) {
    EachInOnePlace(s) && SlotsCounted(s)
  }

  /** No command for the same target was issued after `id`. */
  ghost predicate LatestForTarget(s: State, id: nat) {
    id < |s.issued| && forall j | id < j < |s.issued| :: s.issued[j].key != s.issued[id].key
  }

  /** An entry is the latest command issued for its target, as it was issued, in a phase its progress allows. */
  ghost predicate EntryTrue(s: State, k: string, p: Pending) {
    && LatestForTarget(s, p.id) && s.issued[p.id] == Command(k, p.device, p.socket, p.desired)
    && (p.phase.Sending? ==> p.ackedAt.None? && p.error.None? && p.id !in s.finished)
    && (p.phase.Confirming? ==> p.ackedAt.Some?)
    && (p.phase.Failed? ==> p.error.Some?)
    && (p.ackedAt.Some? ==> p.id in s.finished)
  }

  ghost predicate PendingTrue(s: State) {
    forall k | k in s.pending :: EntryTrue(s, k, s.pending[k])
  }

  /** Commands for one target reach the wire in the order they were issued, each at most once. */
  ghost predicate WireInOrder(s: State) {
    && (forall i | 0 <= i < |s.wire| :: s.wire[i] < |s.issued| && s.wire[i] in s.onWire + s.finished)
    && (forall i, j | 0 <= i < j < |s.wire| && s.issued[s.wire[i]].key == s.issued[s.wire[j]].key ::
       s.wire[i] < s.wire[j])
  }

  ghost predicate Safe(s: State) {
    Placed(s) && PendingTrue(s) && WireInOrder(s)
  }

  lemma {:induction false} InitiallySafe()
    ensures Safe(INITIAL)
  {}

  lemma {:induction false} FinishWhenIdle(s: State, id: nat)
    requires EachInOnePlace(s) && id in Holders(s) && s.waiting == []
    ensures EachInOnePlace(Finish(s, id)) && Holders(Finish(s, id)) == Holders(s) - {id}
  {
    var t := Finish(s, id);
    assert Holders(t) == Holders(s) - {id};
    assert Holders(t) + t.finished == Holders(s) + s.finished;
  }

  lemma {:induction false} FirstInLineIsNew(s: State)
    requires EachInOnePlace(s) && s.waiting != []
    ensures s.waiting[0] == |s.issued| - |s.waiting|
    ensures s.waiting[0] !in Holders(s) && s.waiting[0] !in s.finished
  {
    BelowMembers(|s.issued| - |s.waiting|);
    assert s.waiting[0] !in Holders(s) + s.finished;
  }

  lemma {:induction false} FinishHandsOver(s: State, id: nat)
    requires EachInOnePlace(s) && id in Holders(s) && s.waiting != []
    ensures EachInOnePlace(Finish(s, id)) && Holders(Finish(s, id)) == Holders(s) - {id} + {s.waiting[0]}
  {
    FirstInLineIsNew(s);
    var t := Finish(s, id);
    var next := s.waiting[0];
    assert Holders(t) == Holders(s) - {id} + {next};
    assert Holders(t) + t.finished == Holders(s) + s.finished + {next};
  }

  /** Handing a finished command's slot on keeps every command in its place, and the count right. */
  lemma {:induction false} FinishKeepsPlaced(s: State, id: nat)
    requires Placed(s) && id in Holders(s)
    ensures Placed(Finish(s, id))
  {
    assert |Holders(s) - {id}| == |Holders(s)| - 1;
    if s.waiting == [] {
      FinishWhenIdle(s, id);
    } else {
      FirstInLineIsNew(s);
      FinishHandsOver(s, id);
    }
  }

  lemma {:induction false} AdmitKeepsPlaced(s: State, e: Event)
    requires Placed(s) && e.Send? && s.inFlight < MAX_COMMANDS_IN_FLIGHT
    ensures Placed(Admit(s, e))
  {
    NewIsNowhere(s);
    AdmitPlaces(s, e);
    assert Holders(Admit(s, e)) == Holders(s) + {|s.issued|};
  }

  lemma {:induction false} NewIsNowhere(s: State)
    requires EachInOnePlace(s)
    ensures |s.issued| !in Holders(s) && |s.issued| !in s.finished
  {
    BelowMembers(|s.issued| - |s.waiting|);
    assert |s.issued| !in Holders(s) + s.finished;
  }

  lemma {:induction false} AdmitPlaces(s: State, e: Event)
    requires EachInOnePlace(s) && s.waiting == [] && e.Send? && |s.issued| !in Holders(s) && |s.issued| !in s.finished
    ensures EachInOnePlace(Admit(s, e))
  {
    var n, t := |s.issued|, Admit(s, e);
    assert Holders(t) == Holders(s) + {n};
    assert Holders(t) + t.finished == Holders(s) + s.finished + {n};
  }

  lemma {:induction false} QueueKeepsPlaced(s: State, e: Event)
    requires Placed(s) && e.Send? && s.inFlight >= MAX_COMMANDS_IN_FLIGHT
    ensures Placed(SendStep(s, e))
  {
    assert Holders(SendStep(s, e)) == Holders(s);
  }

  lemma {:induction false} DispatchKeepsPlaced(s: State, id: nat, now: int)
    requires Placed(s) && id in s.granted && id < |s.issued|
    ensures Placed(Dispatch(s, id, now))
  {
    if Current(s, id) {
      assert Holders(Dispatch(s, id, now)) == Holders(s);
    } else {
      FinishKeepsPlaced(s, id);
    }
  }

  lemma {:induction false} SendKeepsPlaced(s: State, e: Event)
    requires Placed(s) && e.Send?
    ensures Placed(SendStep(s, e))
  {
    if s.inFlight < MAX_COMMANDS_IN_FLIGHT {
      AdmitKeepsPlaced(s, e);
      DispatchKeepsPlaced(Admit(s, e), |s.issued|, e.now);
    } else {
      QueueKeepsPlaced(s, e);
    }
  }

  lemma {:induction false} SameSlots(s: State, t: State)
    requires Placed(s) && t == s.(pending := t.pending, cloudRecoveries := t.cloudRecoveries)
    ensures Placed(t)
  {
    assert Holders(t) == Holders(s);
  }

  /** Past its own entry, an answer does nothing but finish the command. */
  lemma {:induction false} AckFinishes(s: State, id: nat, viaCloud: bool, now: int)
    requires id < |s.issued|
    ensures var t := AckStep(s, id, viaCloud, now);
      t == Finish(s, id).(pending := t.pending, cloudRecoveries := t.cloudRecoveries)
  {}

  lemma {:induction false} RejectFinishes(s: State, id: nat, reason: string)
    requires id < |s.issued|
    ensures var t := RejectStep(s, id, reason);
      t == Finish(s, id).(pending := t.pending, cloudRecoveries := t.cloudRecoveries)
  {}

  lemma {:induction false} AckKeepsPlaced(s: State, id: nat, viaCloud: bool, now: int)
    requires Placed(s) && id in s.onWire && id < |s.issued|
    ensures Placed(AckStep(s, id, viaCloud, now))
  {
    AckFinishes(s, id, viaCloud, now);
    SamePlaces(s, id, AckStep(s, id, viaCloud, now));
  }

  lemma {:induction false} RejectKeepsPlaced(s: State, id: nat, reason: string)
    requires Placed(s) && id in s.onWire && id < |s.issued|
    ensures Placed(RejectStep(s, id, reason))
  {
    RejectFinishes(s, id, reason);
    SamePlaces(s, id, RejectStep(s, id, reason));
  }

  lemma {:induction false} StepKeepsPlaced(s: State, e: Event)
    requires Placed(s) && Enabled(s, e)
    ensures Placed(Step(s, e))
  {
    match e
    case Send(_, _, _, _, _) => SendKeepsPlaced(s, e);
    case Resume(id, now) => DispatchKeepsPlaced(s, id, now);
    case Ack(id, viaCloud, now) => AckKeepsPlaced(s, id, viaCloud, now);
    case Reject(id, reason) => RejectKeepsPlaced(s, id, reason);
    case Reconcile(_, _) => SameSlots(s, Step(s, e));
    case Dismiss(_) => SameSlots(s, Step(s, e));
  }

  lemma {:induction false} SamePlaces(s: State, id: nat, t: State)
    requires Placed(s) && id in s.onWire
    requires t == Finish(s, id).(pending := t.pending, cloudRecoveries := t.cloudRecoveries)
    ensures Placed(t)
  {
    FinishKeepsPlaced(s, id);
    SameSlots(Finish(s, id), t);
  }

  /** Finishing a command, and answering its entry if it still has one, leaves every other entry true. */
  lemma {:induction false} OtherEntryKept(s: State, id: nat, t: State, k: string)
    requires PendingTrue(s) && id < |s.issued| && k in s.pending && s.pending[k].id != id
    requires t.issued == s.issued && t.finished == s.finished + {id}
    ensures EntryTrue(t, k, s.pending[k])
  {
    assert EntryTrue(s, k, s.pending[k]);
  }

  lemma {:induction false} StampKeepsEntries(s: State, id: nat, now: int)
    requires PendingTrue(s) && id < |s.issued| && Current(s, id)
    ensures PendingTrue(Dispatch(s, id, now))
  {
    var d := Dispatch(s, id, now);
    assert d.issued == s.issued && d.finished == s.finished;
    forall k | k in d.pending ensures EntryTrue(d, k, d.pending[k]) {
      assert EntryTrue(s, k, s.pending[k]);
    }
  }

  lemma {:induction false} EarlyReturnKeepsEntries(s: State, id: nat, now: int)
    requires PendingTrue(s) && id < |s.issued| && !Current(s, id)
    ensures PendingTrue(Dispatch(s, id, now))
  {
    var d := Dispatch(s, id, now);
    assert d.pending == s.pending && d.issued == s.issued && d.finished == s.finished + {id};
    forall k | k in d.pending ensures EntryTrue(d, k, d.pending[k]) {
      assert EntryTrue(s, k, s.pending[k]);
      OtherEntryKept(s, id, d, k);
    }
  }

  lemma {:induction false} DispatchKeepsEntries(s: State, id: nat, now: int)
    requires Placed(s) && PendingTrue(s) && id in s.granted && id < |s.issued|
    ensures PendingTrue(Dispatch(s, id, now))
  {
    if Current(s, id) {
      StampKeepsEntries(s, id, now);
    } else {
      EarlyReturnKeepsEntries(s, id, now);
    }
  }

  lemma {:induction false} IssueKeepsEntries(s: State, e: Event)
    requires Placed(s) && PendingTrue(s) && e.Send?
    ensures PendingTrue(Issue(s, e))
  {
    var t := Issue(s, e);
    BelowMembers(|s.issued| - |s.waiting|);
    assert |s.issued| !in s.finished by { assert |s.issued| !in Holders(s) + s.finished; }
    forall k | k in t.pending ensures EntryTrue(t, k, t.pending[k]) {
      if k != TargetKey(e.device, e.socket) {
        assert EntryTrue(s, k, s.pending[k]);
      }
    }
  }

  lemma {:induction false} SendKeepsEntries(s: State, e: Event)
    requires Placed(s) && PendingTrue(s) && e.Send?
    ensures PendingTrue(SendStep(s, e))
  {
    IssueKeepsEntries(s, e);
    if s.inFlight < MAX_COMMANDS_IN_FLIGHT {
      AdmitKeepsPlaced(s, e);
      AdmitKeepsEntries(s, e);
      DispatchKeepsEntries(Admit(s, e), |s.issued|, e.now);
    } else {
      var t := SendStep(s, e);
      forall k | k in t.pending ensures EntryTrue(t, k, t.pending[k]) {
        assert EntryTrue(Issue(s, e), k, Issue(s, e).pending[k]);
      }
    }
  }

  lemma {:induction false} AckKeepsEntries(s: State, id: nat, viaCloud: bool, now: int)
    requires PendingTrue(s) && id < |s.issued|
    ensures PendingTrue(AckStep(s, id, viaCloud, now))
  {
    var t := AckStep(s, id, viaCloud, now);
    forall k | k in t.pending ensures EntryTrue(t, k, t.pending[k]) {
      assert EntryTrue(s, k, s.pending[k]);
      if s.pending[k].id != id { OtherEntryKept(s, id, t, k); }
    }
  }

  lemma {:induction false} RejectKeepsEntries(s: State, id: nat, reason: string)
    requires PendingTrue(s) && id < |s.issued|
    ensures PendingTrue(RejectStep(s, id, reason))
  {
    var t := RejectStep(s, id, reason);
    forall k | k in t.pending ensures EntryTrue(t, k, t.pending[k]) {
      assert EntryTrue(s, k, s.pending[k]);
    }
  }

  lemma {:induction false} ReconcileKeepsEntries(s: State, rows: seq<Row>, now: int)
    requires PendingTrue(s)
    ensures PendingTrue(s.(pending := Reconciled(s.pending, rows, now)))
  {
    var t := s.(pending := Reconciled(s.pending, rows, now));
    forall k | k in t.pending ensures EntryTrue(t, k, t.pending[k]) {
      assert EntryTrue(s, k, s.pending[k]);
    }
  }

  lemma {:induction false} StepKeepsEntries(s: State, e: Event)
    requires Placed(s) && PendingTrue(s) && Enabled(s, e)
    ensures PendingTrue(Step(s, e))
  {
    match e
    case Send(_, _, _, _, _) => SendKeepsEntries(s, e);
    case Resume(id, now) => DispatchKeepsEntries(s, id, now);
    case Ack(id, viaCloud, now) => AckKeepsEntries(s, id, viaCloud, now);
    case Reject(id, reason) => RejectKeepsEntries(s, id, reason);
    case Reconcile(rows, now) => ReconcileKeepsEntries(s, rows, now);
    case Dismiss(key) =>
      var t := Step(s, e);
      forall k | k in t.pending ensures EntryTrue(t, k, t.pending[k]) { assert EntryTrue(s, k, s.pending[k]); }
  }

  lemma {:induction false} DispatchKeepsWire(s: State, id: nat, now: int)
    requires Placed(s) && PendingTrue(s) && WireInOrder(s) && id in s.granted && id < |s.issued|
    ensures WireInOrder(Dispatch(s, id, now))
  {
    if Current(s, id) {
      LatestGoesLast(s, id);
      WireGrows(s, Dispatch(s, id, now), id);
    }
  }

  lemma {:induction false} LatestGoesLast(s: State, id: nat)
    requires Placed(s) && PendingTrue(s) && WireInOrder(s) && id in s.granted && id < |s.issued| && Current(s, id)
    ensures forall i | 0 <= i < |s.wire| && s.issued[s.wire[i]].key == s.issued[id].key :: s.wire[i] < id
  {
    assert EntryTrue(s, s.issued[id].key, s.pending[s.issued[id].key]);
    forall i | 0 <= i < |s.wire| && s.issued[s.wire[i]].key == s.issued[id].key ensures s.wire[i] < id {
      assert s.wire[i] != id;
    }
  }

  lemma {:induction false} WireGrows(s: State, t: State, id: nat)
    requires WireInOrder(s) && id < |s.issued| && t.issued == s.issued && t.wire == s.wire + [id]
    requires t.onWire == s.onWire + {id} && t.finished == s.finished
    requires forall i | 0 <= i < |s.wire| && s.issued[s.wire[i]].key == s.issued[id].key :: s.wire[i] < id
    ensures WireInOrder(t)
  {}

  lemma {:induction false} IssueKeepsWire(s: State, t: State)
    requires WireInOrder(s) && |t.issued| > |s.issued| && t.issued[..|s.issued|] == s.issued
    requires t.wire == s.wire && s.onWire <= t.onWire && s.finished <= t.finished
    ensures WireInOrder(t)
  {
    assert forall i | 0 <= i < |s.issued| :: t.issued[i] == t.issued[..|s.issued|][i];
  }

  /** A command off the wire is finished, so what was sent stays accounted for. */
  lemma {:induction false} AnswerKeepsWire(s: State, id: nat, t: State)
    requires WireInOrder(s) && id in s.onWire
    requires t == Finish(s, id).(pending := t.pending, cloudRecoveries := t.cloudRecoveries)
    ensures WireInOrder(t)
  {
    assert t.wire == s.wire && t.issued == s.issued;
    assert t.onWire + t.finished == s.onWire + s.finished;
  }

  lemma {:induction false} AckKeepsWire(s: State, id: nat, viaCloud: bool, now: int)
    requires WireInOrder(s) && id in s.onWire && id < |s.issued|
    ensures WireInOrder(AckStep(s, id, viaCloud, now))
  {
    AckFinishes(s, id, viaCloud, now);
    AnswerKeepsWire(s, id, AckStep(s, id, viaCloud, now));
  }

  lemma {:induction false} RejectKeepsWire(s: State, id: nat, reason: string)
    requires WireInOrder(s) && id in s.onWire && id < |s.issued|
    ensures WireInOrder(RejectStep(s, id, reason))
  {
    RejectFinishes(s, id, reason);
    AnswerKeepsWire(s, id, RejectStep(s, id, reason));
  }

  lemma {:induction false} SendKeepsWire(s: State, e: Event)
    requires Placed(s) && PendingTrue(s) && WireInOrder(s) && e.Send?
    ensures WireInOrder(SendStep(s, e))
  {
    if s.inFlight < MAX_COMMANDS_IN_FLIGHT {
      AdmitKeepsPlaced(s, e);
      AdmitKeepsEntries(s, e);
      IssueKeepsWire(s, Admit(s, e));
      DispatchKeepsWire(Admit(s, e), |s.issued|, e.now);
    } else {
      IssueKeepsWire(s, SendStep(s, e));
    }
  }

  lemma {:induction false} StepKeepsWire(s: State, e: Event)
    requires Placed(s) && PendingTrue(s) && WireInOrder(s) && Enabled(s, e)
    ensures WireInOrder(Step(s, e))
  {
    match e
    case Send(_, _, _, _, _) => SendKeepsWire(s, e);
    case Resume(id, now) => DispatchKeepsWire(s, id, now);
    case Ack(id, viaCloud, now) => AckKeepsWire(s, id, viaCloud, now);
    case Reject(id, reason) => RejectKeepsWire(s, id, reason);
    case Reconcile(_, _) =>
    case Dismiss(_) =>
  }

  lemma {:induction false} AdmitKeepsEntries(s: State, e: Event)
    requires Placed(s) && PendingTrue(s) && e.Send?
    ensures PendingTrue(Admit(s, e))
  {
    IssueKeepsEntries(s, e);
    var t := Admit(s, e);
    forall k | k in t.pending ensures EntryTrue(t, k, t.pending[k]) {
      assert EntryTrue(Issue(s, e), k, Issue(s, e).pending[k]);
    }
  }

  lemma {:induction false} StepKeepsSafe(s: State, e: Event)
    requires Safe(s) && Enabled(s, e)
    ensures Safe(Step(s, e))
  {
    StepKeepsPlaced(s, e);
    StepKeepsEntries(s, e);
    StepKeepsWire(s, e);
  }

  lemma {:induction false} RunsAreSafe(s: State, es: seq<Event>)
    requires Safe(s) && Runs(s, es)
    ensures Safe(End(s, es))
    decreases |es|
  {
    if es != [] {
      StepKeepsSafe(s, es[0]);
      RunsAreSafe(Step(s, es[0]), es[1..]);
    }
  }

  /** In every run from an empty store: entries are the latest issued, and the wire sees each target in issue order. */
  lemma {:induction false} EveryRunIsSafe(es: seq<Event>)
    requires Runs(INITIAL, es)
    ensures Safe(End(INITIAL, es))
  {
    InitiallySafe();
    RunsAreSafe(INITIAL, es);
  }

  // ---------------------------------------------------------------- what no step may do

  ghost predicate OnlyOwnEntry(s: State, t: State, id: nat) {
    && t.pending.Keys == s.pending.Keys
    && forall k | k in s.pending ::
       t.pending[k].id == s.pending[k].id && (s.pending[k].id != id ==> t.pending[k] == s.pending[k])
  }

  lemma {:induction false} DispatchTouchesOnlyItsOwn(s: State, id: nat, now: int)
    requires id < |s.issued|
    ensures OnlyOwnEntry(s, Dispatch(s, id, now), id)
  {}

  lemma {:induction false} AckTouchesOnlyItsOwn(s: State, id: nat, viaCloud: bool, now: int)
    requires id < |s.issued|
    ensures OnlyOwnEntry(s, AckStep(s, id, viaCloud, now), id)
  {}

  lemma {:induction false} RejectTouchesOnlyItsOwn(s: State, id: nat, reason: string)
    requires id < |s.issued|
    ensures OnlyOwnEntry(s, RejectStep(s, id, reason), id)
  {}

  /** A late answer, or a late turn, alters no entry but its own command's, and gives no target a new command. */
  lemma {:induction false} AnswersTouchOnlyTheirOwn(s: State, e: Event)
    requires Enabled(s, e) && (e.Ack? || e.Reject? || e.Resume?)
    ensures OnlyOwnEntry(s, Step(s, e), e.id)
  {
    match e
    case Resume(id, now) => DispatchTouchesOnlyItsOwn(s, id, now);
    case Ack(id, viaCloud, now) => AckTouchesOnlyItsOwn(s, id, viaCloud, now);
    case Reject(id, reason) => RejectTouchesOnlyItsOwn(s, id, reason);
  }

  // ---------------------------------------------------------------- what every event does

  lemma {:induction false} OwnEntryExactly(s: State, id: nat, k: string)
    requires PendingTrue(s) && id < |s.issued| && k in s.pending
    ensures s.pending[k].id == id <==> Current(s, id) && k == s.issued[id].key
  {
    assert EntryTrue(s, k, s.pending[k]);
  }

  /** A refusal fails the entry of its command for the reason given, and changes nothing else of any entry. */
  lemma {:induction false} RefusalsFail(s: State, id: nat, reason: string)
    requires Safe(s) && Enabled(s, Reject(id, reason))
    ensures var t := Step(s, Reject(id, reason));
            && t.pending == (map k | k in s.pending ::
                 var p := s.pending[k]; if p.id == id then p.(phase := Failed, error := Some(Refused(reason))) else p)
            && t.cloudRecoveries == s.cloudRecoveries && t.issued == s.issued && t.wire == s.wire
  {
    RefusedEntries(s, id, reason);
  }

  lemma {:induction false} RefusedEntries(s: State, id: nat, reason: string)
    requires PendingTrue(s) && id < |s.issued|
    ensures RejectStep(s, id, reason).pending == (map k | k in s.pending ::
              var p := s.pending[k]; if p.id == id then p.(phase := Failed, error := Some(Refused(reason))) else p)
  {
    forall k | k in s.pending { OwnEntryExactly(s, id, k); }
  }

  /**
   An ack confirms the entry of its command from that moment on, and notes the device if the answer came by the cloud.
   */
  lemma {:induction false} AcksConfirm(s: State, id: nat, viaCloud: bool, now: int)
    requires Safe(s) && Enabled(s, Ack(id, viaCloud, now))
    ensures var t := Step(s, Ack(id, viaCloud, now));
            && t.pending == (map k | k in s.pending ::
                 var p := s.pending[k]; if p.id == id then p.(phase := Confirming, ackedAt := Some(now)) else p)
            && t.cloudRecoveries ==
               (if viaCloud then s.cloudRecoveries[s.issued[id].device := now] else s.cloudRecoveries)
            && t.issued == s.issued && t.wire == s.wire
  {
    AckNotes(s, id, viaCloud, now);
    AckedEntries(s, id, viaCloud, now);
  }

  lemma {:induction false} AckNotes(s: State, id: nat, viaCloud: bool, now: int)
    requires id < |s.issued|
    ensures var t := AckStep(s, id, viaCloud, now);
            && t.cloudRecoveries ==
               (if viaCloud then s.cloudRecoveries[s.issued[id].device := now] else s.cloudRecoveries)
            && t.issued == s.issued && t.wire == s.wire
  {}

  lemma {:induction false} AckedEntries(s: State, id: nat, viaCloud: bool, now: int)
    requires PendingTrue(s) && id < |s.issued|
    ensures AckStep(s, id, viaCloud, now).pending == (map k | k in s.pending ::
              var p := s.pending[k]; if p.id == id then p.(phase := Confirming, ackedAt := Some(now)) else p)
  {
    forall k | k in s.pending { OwnEntryExactly(s, id, k); }
  }

  /** The turn of a command stamps its entry and sends it; a command with no entry any more is not sent. */
  lemma {:induction false} TurnsStamp(s: State, id: nat, now: int)
    requires Safe(s) && Enabled(s, Resume(id, now))
    ensures var t := Step(s, Resume(id, now));
            && t.pending == (map k | k in s.pending ::
                 var p := s.pending[k]; if p.id == id then p.(issuedAt := now) else p)
            && t.wire == s.wire + (if exists k :: k in s.pending && s.pending[k].id == id then [id] else [])
            && t.cloudRecoveries == s.cloudRecoveries && t.issued == s.issued
  {
    forall k | k in s.pending { OwnEntryExactly(s, id, k); }
    if Current(s, id) { assert s.issued[id].key in s.pending; }
    assert s.wire + [] == s.wire;
  }

  /**
   A new command's entry says what was asked of what, when, and
   what the target showed then; it stands for its target alone.
   */
  lemma {:induction false} SendsAreEntered(s: State, e: Event)
    requires e.Send?
    ensures var t := Step(s, e);
            var k := if e.socket.None? then e.device else e.device + (if e.socket.value == 1 then ":1" else ":2");
            && t.issued == s.issued + [Command(k, e.device, e.socket, e.desired)]
            && t.pending == s.pending[k :=
                 Pending(|s.issued|, e.device, e.socket, e.desired, e.observedBefore, Sending, e.now, None, None)]
            && t.cloudRecoveries == s.cloudRecoveries
  {
    if s.inFlight < MAX_COMMANDS_IN_FLIGHT { assert Current(Admit(s, e), |s.issued|); }
  }

  /** A frame takes entries away or fails them, and does nothing else; a dismissal takes its own away. */
  lemma {:induction false} FramesOnlyFailOrDrop(s: State, rows: seq<Row>, now: int, key: string)
    ensures var t := Step(s, Reconcile(rows, now));
            && t == s.(pending := t.pending) && t.pending.Keys <= s.pending.Keys
            && forall k | k in t.pending ::
                 || t.pending[k] == s.pending[k]
                 || t.pending[k] == s.pending[k].(phase := Failed, error := t.pending[k].error)
    ensures Step(s, Dismiss(key)) == s.(pending := map k | k in s.pending && k != key :: s.pending[k])
  {}

  /** The commands issued in a run, in order. */
  ghost function Issues(es: seq<Event>): seq<Event> {
    if es == [] then []
    else Issues(es[..|es| - 1]) + (if es[|es| - 1].Send? then [es[|es| - 1]] else [])
  }

  /** When the last answer by the cloud for a device came, in a run whose commands are `issued`. */
  ghost function LastCloudAck(es: seq<Event>, issued: seq<Command>, device: string): Option<int> {
    if es == [] then None
    else
      var e := es[|es| - 1];
      if e.Ack? && e.viaCloud && e.id < |issued| && issued[e.id].device == device then Some(e.now)
      else LastCloudAck(es[..|es| - 1], issued, device)
  }

  /** All an entry says was said in the run, of its own command: asked, sent, acknowledged, refused. */
  ghost predicate Witnessed(es: seq<Event>, p: Pending) {
    && p.id < |Issues(es)| && AskedBy(Issues(es)[p.id], p, es)
    && (p.phase.Confirming? ==> p.ackedAt.Some?)
    && (p.ackedAt.Some? ==> Ack(p.id, true, p.ackedAt.value) in es || Ack(p.id, false, p.ackedAt.value) in es)
    && (p.error.Some? && p.error.value.Refused? ==> Reject(p.id, p.error.value.reason) in es)
  }

  ghost predicate AskedBy(e: Event, p: Pending, es: seq<Event>) {
    && e.Send? && e.device == p.device && e.socket == p.socket && e.desired == p.desired
    && e.observedBefore == p.observedBefore && (p.issuedAt == e.now || Resume(p.id, p.issuedAt) in es)
  }

  /** What the store holds is what the run so far says of it. */
  ghost predicate TellsTheRun(s: State, es: seq<Event>) {
    && |s.issued| == |Issues(es)|
    && (forall e | e in es && e.Ack? :: e.id < |s.issued|)
    && (forall k | k in s.pending :: Witnessed(es, s.pending[k]))
    && (forall d :: RecoveredLast(s, es, d))
  }

  ghost predicate RecoveredLast(s: State, es: seq<Event>, d: string) {
    LastCloudAck(es, s.issued, d) == if d in s.cloudRecoveries then Some(s.cloudRecoveries[d]) else None
  }

  lemma {:induction false} MoreIssues(es: seq<Event>, e: Event)
    ensures Issues(es + [e]) == Issues(es) + (if e.Send? then [e] else [])
  {
    assert (es + [e])[..|es|] == es;
  }

  lemma {:induction false} StillWitnessed(es: seq<Event>, e: Event, p: Pending)
    requires Witnessed(es, p)
    ensures Witnessed(es + [e], p)
  {
    MoreIssues(es, e);
  }

  /** Later commands do not change whose ack was the last. */
  lemma {:induction false} MoreCommandsSameAcks(es: seq<Event>, issued: seq<Command>, more: seq<Command>, d: string)
    requires forall e | e in es && e.Ack? :: e.id < |issued|
    ensures LastCloudAck(es, issued + more, d) == LastCloudAck(es, issued, d)
  {
    if es != [] {
      assert es[|es| - 1] in es;
      MoreCommandsSameAcks(es[..|es| - 1], issued, more, d);
    }
  }

  lemma {:induction false} OneMoreAck(es: seq<Event>, e: Event, issued: seq<Command>, d: string)
    ensures LastCloudAck(es + [e], issued, d) ==
            if e.Ack? && e.viaCloud && e.id < |issued| && issued[e.id].device == d then Some(e.now)
            else LastCloudAck(es, issued, d)
  {
    assert (es + [e])[..|es|] == es;
  }

  lemma {:induction false} AcksAreTold(s: State, es: seq<Event>, id: nat, viaCloud: bool, now: int)
    requires Safe(s) && TellsTheRun(s, es) && Enabled(s, Ack(id, viaCloud, now))
    ensures TellsTheRun(Step(s, Ack(id, viaCloud, now)), es + [Ack(id, viaCloud, now)])
  {
    var e := Ack(id, viaCloud, now);
    var t := Step(s, e);
    AcksConfirm(s, id, viaCloud, now);
    MoreIssues(es, e);
    forall k | k in t.pending ensures Witnessed(es + [e], t.pending[k]) { StillWitnessed(es, e, s.pending[k]); }
    forall d ensures RecoveredLast(t, es + [e], d) {
      OneMoreAck(es, e, t.issued, d);
      assert RecoveredLast(s, es, d);
    }
  }

  lemma {:induction false} SendsAreTold(s: State, es: seq<Event>, e: Event)
    requires TellsTheRun(s, es) && e.Send?
    ensures TellsTheRun(Step(s, e), es + [e])
  {
    var t := Step(s, e);
    SendsAreEntered(s, e);
    MoreIssues(es, e);
    forall k | k in t.pending ensures Witnessed(es + [e], t.pending[k]) {
      if k in s.pending && t.pending[k] == s.pending[k] { StillWitnessed(es, e, s.pending[k]); }
    }
    forall d ensures RecoveredLast(t, es + [e], d) {
      OneMoreAck(es, e, t.issued, d);
      MoreCommandsSameAcks(es, s.issued, t.issued[|s.issued|..], d);
      assert s.issued + t.issued[|s.issued|..] == t.issued;
      assert RecoveredLast(s, es, d);
    }
  }

  /** An event that neither issues nor acknowledges: every entry it leaves was there, or says it. */
  lemma {:induction false} OthersAreTold(s: State, es: seq<Event>, e: Event)
    requires Safe(s) && TellsTheRun(s, es) && Enabled(s, e) && !e.Send? && !e.Ack?
    ensures TellsTheRun(Step(s, e), es + [e])
  {
    var t := Step(s, e);
    MoreIssues(es, e);
    OthersKeepIssues(s, e);
    forall k | k in t.pending ensures Witnessed(es + [e], t.pending[k]) { OtherEntryTold(s, es, e, k); }
    forall d ensures RecoveredLast(t, es + [e], d) {
      OneMoreAck(es, e, t.issued, d);
      assert RecoveredLast(s, es, d);
    }
  }

  lemma {:induction false} OthersKeepIssues(s: State, e: Event)
    requires Safe(s) && Enabled(s, e) && !e.Send? && !e.Ack?
    ensures Step(s, e).issued == s.issued && Step(s, e).cloudRecoveries == s.cloudRecoveries
  {
    match e {
      case Resume(id, now) => TurnsStamp(s, id, now);
      case Reject(id, reason) => RefusalsFail(s, id, reason);
      case Reconcile(rows, now) => FramesOnlyFailOrDrop(s, rows, now, "");
      case Dismiss(key) => FramesOnlyFailOrDrop(s, [], 0, key);
    }
  }

  lemma {:induction false} OtherEntryTold(s: State, es: seq<Event>, e: Event, k: string)
    requires Safe(s) && TellsTheRun(s, es) && Enabled(s, e) && !e.Send? && !e.Ack? && k in Step(s, e).pending
    ensures Witnessed(es + [e], Step(s, e).pending[k])
  {
    match e {
      case Resume(id, now) => TurnsStamp(s, id, now);
      case Reject(id, reason) => RefusalsFail(s, id, reason);
      case Reconcile(rows, now) => FrameErrors(s, rows, now, k);
      case Dismiss(key) => FramesOnlyFailOrDrop(s, [], 0, key);
    }
    StillWitnessed(es, e, s.pending[k]);
  }

  lemma {:induction false} FrameErrors(s: State, rows: seq<Row>, now: int, k: string)
    requires k in Step(s, Reconcile(rows, now)).pending
    ensures var t := Step(s, Reconcile(rows, now));
            k in s.pending && (t.pending[k] == s.pending[k]
              || (t.pending[k] == s.pending[k].(phase := Failed, error := t.pending[k].error)
                  && t.pending[k].error.Some? && !t.pending[k].error.value.Refused?))
  {}

  lemma {:induction false} StepTells(s: State, es: seq<Event>, e: Event)
    requires Safe(s) && TellsTheRun(s, es) && Enabled(s, e)
    ensures TellsTheRun(Step(s, e), es + [e])
  {
    if e.Send? {
      SendsAreTold(s, es, e);
    } else if e.Ack? {
      AcksAreTold(s, es, e.id, e.viaCloud, e.now);
    } else {
      OthersAreTold(s, es, e);
    }
  }

  lemma {:induction false} RunsTell(s: State, before: seq<Event>, es: seq<Event>)
    requires Safe(s) && TellsTheRun(s, before) && Runs(s, es)
    ensures TellsTheRun(End(s, es), before + es)
    decreases |es|
  {
    if es == [] {
      assert before + es == before;
    } else {
      var e := es[0];
      StepKeepsSafe(s, e);
      StepTells(s, before, e);
      RunsTell(Step(s, e), before + [e], es[1..]);
      assert before + [e] + es[1..] == before + es;
    }
  }

  /**
   In every run from an empty store an entry says only what the run said of its own command: what was asked and
   what showed then, when it was queued or sent, that it was acknowledged and when, and why it was refused; it is
   confirming only after such an ack. The devices noted are those the cloud answered for, each at its last answer.
   */
  lemma {:induction false} EntriesTellTheRun(es: seq<Event>)
    requires Runs(INITIAL, es)
    ensures TellsTheRun(End(INITIAL, es), es)
  {
    InitiallySafe();
    RunsTell(INITIAL, [], es);
    assert [] + es == es;
  }

  /** What holds of the command `id` as it goes out in `t`: wanted, the latest for its target, and stamped now. */
  ghost predicate SentAsWanted(t: State, id: nat, now: int) {
    LatestForTarget(t, id) && Current(t, id) && t.pending[t.issued[id].key].issuedAt == now
  }

  lemma {:induction false} DispatchSendsTheWanted(s: State, id: nat, now: int)
    requires Placed(s) && PendingTrue(s) && WireInOrder(s) && id in s.granted && id < |s.issued|
    ensures var t := Dispatch(s, id, now);
            t.wire == s.wire || (t.wire == s.wire + [id] && id !in s.wire && SentAsWanted(t, id, now))
  {
    if Current(s, id) {
      assert EntryTrue(s, s.issued[id].key, s.pending[s.issued[id].key]);
    }
  }

  /** Whatever reaches the wire was, at that moment, the latest command issued for its target. */
  lemma {:induction false} OnlyTheWantedIsSent(s: State, e: Event)
    requires Safe(s) && Enabled(s, e)
    ensures var t := Step(s, e);
            t.wire == s.wire || exists id, now :: t.wire == s.wire + [id] && id !in s.wire && SentAsWanted(t, id, now)
  {
    match e
    case Send(_, _, _, _, _) => SendSendsTheWanted(s, e);
    case Resume(id, now) => DispatchSendsTheWanted(s, id, now);
    case Ack(id, viaCloud, now) => AckFinishes(s, id, viaCloud, now);
    case Reject(id, reason) => RejectFinishes(s, id, reason);
    case Reconcile(_, _) =>
    case Dismiss(_) =>
  }

  lemma {:induction false} SendSendsTheWanted(s: State, e: Event)
    requires Safe(s) && e.Send?
    ensures var t := SendStep(s, e);
            t.wire == s.wire || (t.wire == s.wire + [|s.issued|] && |s.issued| !in s.wire
              && SentAsWanted(t, |s.issued|, e.now))
  {
    if s.inFlight < MAX_COMMANDS_IN_FLIGHT {
      AdmitKeepsPlaced(s, e);
      AdmitKeepsEntries(s, e);
      IssueKeepsWire(s, Admit(s, e));
      DispatchSendsTheWanted(Admit(s, e), |s.issued|, e.now);
    }
  }

  /** The row a frame has for a device: of two the later. */
  ghost predicate IsRowOf(rows: seq<Row>, device: string, row: Row) {
    exists i | 0 <= i < |rows| ::
      rows[i] == row && row.device == device && forall j | i < j < |rows| :: rows[j].device != device
  }

  /** A row of a device, not the totals, with something to show for the target. */
  ghost predicate TellsOf(row: Row, socket: Option<Socket>) {
    row.device != "_totals" && if socket.None? then row.state != Undefined else socket.value in row.sockets
  }

  ghost predicate TellsDone(row: Row, socket: Option<Socket>, desired: SwitchState) {
    && row.device != "_totals"
    && if socket.None? then row.state == Is(desired)
       else socket.value in row.sockets && row.sockets[socket.value] == desired
  }

  /** The device is not known to be off, and the row is no older than its own budget, or half a minute. */
  ghost predicate IsLive(row: Row, now: int) {
    && row.online != Some(false)
    && (row.ts.Some? ==> now - row.ts.value <= if row.staleAfterMs.Some? then row.staleAfterMs.value else 30000)
  }

  /** The frame shows the command's target. */
  ghost predicate Shown(rows: seq<Row>, c: Command) {
    exists row :: IsRowOf(rows, c.device, row) && TellsOf(row, c.socket)
  }

  /** The frame holds a row of the command's device, current by its own budget, in the state the command asked for. */
  ghost predicate ShowsDone(rows: seq<Row>, c: Command, now: int) {
    exists row :: IsRowOf(rows, c.device, row) && TellsDone(row, c.socket, c.desired) && IsLive(row, now)
  }

  lemma {:induction false} RowForIsTheRow(rows: seq<Row>, device: string, row: Row)
    ensures RowFor(rows, device) == Some(row) <==> IsRowOf(rows, device, row)
  {
    if rows != [] {
      var front, last := rows[..|rows| - 1], rows[|rows| - 1];
      RowForIsTheRow(front, device, row);
      if IsRowOf(front, device, row) && last.device != device {
        var i :| 0 <= i < |front| && front[i] == row && forall j | i < j < |front| :: front[j].device != device;
        assert rows[i] == row;
        assert forall j | i < j < |rows| :: j < |front| ==> rows[j] == front[j];
      }
      if IsRowOf(rows, device, row) {
        var i :| 0 <= i < |rows| && rows[i] == row && row.device == device
                 && forall j | i < j < |rows| :: rows[j].device != device;
        if i < |front| {
          assert front[i] == row && forall j | i < j < |front| :: front[j] == rows[j];
        }
      }
      if last.device == device && last == row { assert rows[|rows| - 1] == row; }
    }
  }

  /** Looking up, reading and judging the age of a row come to that. */
  lemma {:induction false} ShownByItsRow(rows: seq<Row>, c: Command, now: int)
    ensures var row := RowFor(rows, c.device);
            && (Shown(rows, c) <==> row.Some? && !IsTotals(row.value) && !ObservedIn(row.value, c.socket).Undefined?)
            && (ShowsDone(rows, c, now) <==>
                row.Some? && !IsTotals(row.value) && ObservedIn(row.value, c.socket) == Is(c.desired)
                && !IsStale(row.value, now))
  {
    forall row { RowForIsTheRow(rows, c.device, row); }
    var row := RowFor(rows, c.device);
    if row.Some? { assert IsRowOf(rows, c.device, row.value); }
  }

  /**
   In any reachable state, a frame takes a target's entry away exactly when it shows the target, and either
   shows done the very command last issued for it, or the entry's failure has stood long enough.
   */
  lemma {:induction false} FramesDropExactlyTheDone(es: seq<Event>, rows: seq<Row>, now: int, k: string)
    requires Runs(INITIAL, es) && k in End(INITIAL, es).pending
    ensures var s := End(INITIAL, es);
            var p := s.pending[k];
            && LatestForTarget(s, p.id) && s.issued[p.id].key == k
            && (k !in Step(s, Reconcile(rows, now)).pending <==>
                if p.phase.Failed? then Shown(rows, s.issued[p.id]) && now - p.issuedAt > FAILED_SWEEP_MS
                else ShowsDone(rows, s.issued[p.id], now))
  {
    EveryRunIsSafe(es);
    var s := End(INITIAL, es);
    var p := s.pending[k];
    assert EntryTrue(s, k, p);
    DropsExactlyTheDone(p, s.issued[p.id], rows, now);
  }

  lemma {:induction false} DropsExactlyTheDone(p: Pending, c: Command, rows: seq<Row>, now: int)
    requires c.device == p.device && c.socket == p.socket && c.desired == p.desired
    ensures Judge(p, RowFor(rows, p.device), now).Drop? <==>
      if p.phase.Failed? then Shown(rows, c) && now - p.issuedAt > FAILED_SWEEP_MS else ShowsDone(rows, c, now)
  {
    ShownByItsRow(rows, c, now);
  }

  /** The frame's row of the command's device was made at or after `since`. */
  ghost predicate ReportedSince(rows: seq<Row>, device: string, since: int) {
    exists r :: IsRowOf(rows, device, r) && r.ts.Some? && r.ts.value >= since
  }

  /**
   A frame fails an entry exactly when it shows its target, not done, six seconds or more after the ack, or without
   one more than thirty after its stamp.
   */
  lemma {:induction false} FramesFailExactly(s: State, rows: seq<Row>, now: int, k: string)
    requires Safe(s) && k in s.pending && !s.pending[k].phase.Failed?
    ensures var t, p := Step(s, Reconcile(rows, now)), s.pending[k];
            (k in t.pending && t.pending[k].phase.Failed?) <==>
            && Shown(rows, s.issued[p.id]) && !ShowsDone(rows, s.issued[p.id], now)
            && if p.ackedAt.Some? then now - p.ackedAt.value >= 6000 else now - p.issuedAt > 30000
  {
    var p := s.pending[k];
    assert EntryTrue(s, k, p);
    ShownByItsRow(rows, s.issued[p.id], now);
    VerdictStands(s, rows, now, k);
  }

  lemma {:induction false} VerdictStands(s: State, rows: seq<Row>, now: int, k: string)
    requires k in s.pending
    ensures var t, p := Step(s, Reconcile(rows, now)), s.pending[k];
            var v := Judge(p, RowFor(rows, p.device), now);
            (k in t.pending <==> !v.Drop?) && (k in t.pending ==> t.pending[k] == AfterVerdict(p, v))
  {}

  /** What each text of a failure claims of the command, its entry and the frame. */
  ghost predicate Earned(error: Option<Failure>, p: Pending, answered: bool, rows: seq<Row>, now: int) {
    match error
    case Some(NeverReached) => !answered && now - p.issuedAt > LEAK_GUARD_MS
    case Some(NotReported) =>
      answered && p.ackedAt.Some? && now - p.ackedAt.value >= COMMAND_CONFIRM_MS
        && ReportedSince(rows, p.device, p.issuedAt)
    case Some(NotHeardSince) =>
      && answered && p.ackedAt.Some? && now - p.ackedAt.value >= COMMAND_CONFIRM_MS
      && exists r :: IsRowOf(rows, p.device, r) && !(r.ts.Some? && r.ts.value >= p.issuedAt)
    case _ => false
  }

  lemma {:induction false} VerdictIsEarned(p: Pending, answered: bool, rows: seq<Row>, now: int)
    requires !p.phase.Failed? && (p.ackedAt.Some? <==> answered)
    requires Judge(p, RowFor(rows, p.device), now).Fail?
    ensures Earned(Some(Judge(p, RowFor(rows, p.device), now).error), p, answered, rows, now)
  {
    RowForIsTheRow(rows, p.device, RowFor(rows, p.device).value);
  }

  /**
   In any reachable state, a frame that fails an entry shows the target, not done by the command last issued
   for it, and what it writes is earned: that the bridge was never reached, only of a command not yet answered,
   half a minute after its stamp; that the device did not report the new state, only of an answered one, when a
   row of the device was made since; that the device has not reported, only of an answered one with an older or
   undated row.
   */
  lemma {:induction false} FailuresAreEarned(es: seq<Event>, rows: seq<Row>, now: int, k: string)
    requires Runs(INITIAL, es) && k in End(INITIAL, es).pending && !End(INITIAL, es).pending[k].phase.Failed?
    requires k in Step(End(INITIAL, es), Reconcile(rows, now)).pending
    requires Step(End(INITIAL, es), Reconcile(rows, now)).pending[k].phase.Failed?
    ensures var s := End(INITIAL, es);
            var p := s.pending[k];
            && LatestForTarget(s, p.id) && Shown(rows, s.issued[p.id]) && !ShowsDone(rows, s.issued[p.id], now)
            && Earned(Step(s, Reconcile(rows, now)).pending[k].error, p, p.id in s.finished, rows, now)
  {
    EveryRunIsSafe(es);
    var s := End(INITIAL, es);
    var p := s.pending[k];
    assert EntryTrue(s, k, p);
    ShownByItsRow(rows, s.issued[p.id], now);
    var v := Judge(p, RowFor(rows, p.device), now);
    assert Step(s, Reconcile(rows, now)).pending[k] == AfterVerdict(p, v);
    VerdictIsEarned(p, p.id in s.finished, rows, now);
  }

  /** What the declaration of `error` says of it: set only when the entry has failed. */
  ghost predicate ErrorOnlyWhenFailed(s: State) {
    forall k | k in s.pending && s.pending[k].error.Some? :: s.pending[k].phase.Failed?
  }

  /** The acknowledgement of a command whose entry has failed meanwhile. */
  ghost predicate AcksAFailure(s: State, e: Event)
    requires Enabled(s, e)
  {
    e.Ack? && Current(s, e.id) && s.pending[s.issued[e.id].key].phase.Failed?
  }

  lemma {:induction false} AckKeepsErrorsExactly(s: State, id: nat, viaCloud: bool, now: int)
    requires Safe(s) && id in s.onWire && id < |s.issued| && ErrorOnlyWhenFailed(s)
    ensures ErrorOnlyWhenFailed(AckStep(s, id, viaCloud, now)) <==>
      !(Current(s, id) && s.pending[s.issued[id].key].phase.Failed?)
  {
    var t := AckStep(s, id, viaCloud, now);
    if Current(s, id) {
      var own := s.issued[id].key;
      assert EntryTrue(s, own, s.pending[own]);
      AckedPending(s, id, viaCloud, now);
      assert t.pending[own] == s.pending[own].(phase := Confirming, ackedAt := Some(now));
      assert forall k | k in t.pending && k != own :: t.pending[k] == s.pending[k];
    } else {
      LatePending(s, id, viaCloud, now);
    }
  }

  lemma {:induction false} AckedPending(s: State, id: nat, viaCloud: bool, now: int)
    requires id < |s.issued| && Current(s, id)
    ensures var own := s.issued[id].key;
            AckStep(s, id, viaCloud, now).pending ==
              s.pending[own := s.pending[own].(phase := Confirming, ackedAt := Some(now))]
  {}

  lemma {:induction false} LatePending(s: State, id: nat, viaCloud: bool, now: int)
    requires id < |s.issued| && !Current(s, id)
    ensures AckStep(s, id, viaCloud, now).pending == s.pending
  {}

  lemma {:induction false} SendKeepsErrors(s: State, e: Event)
    requires e.Send? && ErrorOnlyWhenFailed(s)
    ensures ErrorOnlyWhenFailed(SendStep(s, e))
  {
    var t := Issue(s, e);
    assert ErrorOnlyWhenFailed(t);
    assert ErrorOnlyWhenFailed(Admit(s, e));
    DispatchKeepsErrors(Admit(s, e), |s.issued|, e.now);
  }

  lemma {:induction false} DispatchKeepsErrors(s: State, id: nat, now: int)
    requires id < |s.issued| && ErrorOnlyWhenFailed(s)
    ensures ErrorOnlyWhenFailed(Dispatch(s, id, now))
  {}

  lemma {:induction false} RejectKeepsErrors(s: State, id: nat, reason: string)
    requires id < |s.issued| && ErrorOnlyWhenFailed(s)
    ensures ErrorOnlyWhenFailed(RejectStep(s, id, reason))
  {}

  /** The declared reading of `error` outlives every event but one: an acknowledgement that comes to a failed entry. */
  lemma {:induction false} ErrorOutlivesFailureExactly(s: State, e: Event)
    requires Safe(s) && Enabled(s, e) && ErrorOnlyWhenFailed(s)
    ensures ErrorOnlyWhenFailed(Step(s, e)) <==> !AcksAFailure(s, e)
  {
    match e
    case Send(_, _, _, _, _) => SendKeepsErrors(s, e);
    case Resume(id, now) => DispatchKeepsErrors(s, id, now);
    case Ack(id, viaCloud, now) => AckKeepsErrorsExactly(s, id, viaCloud, now);
    case Reject(id, reason) => RejectKeepsErrors(s, id, reason);
    case Reconcile(_, _) =>
    case Dismiss(_) =>
  }

  lemma {:induction false} OneMoreStep(s: State, es: seq<Event>, e: Event)
    requires Runs(s, es) && Enabled(End(s, es), e)
    ensures Runs(s, es + [e]) && End(s, es + [e]) == Step(End(s, es), e)
    decreases |es|
  {
    if es == [] {
      assert [e][1..] == [];
      assert es + [e] == [e];
      assert Runs(Step(s, e), []) && End(Step(s, e), []) == Step(s, e);
    } else {
      assert (es + [e])[1..] == es[1..] + [e];
      OneMoreStep(Step(s, es[0]), es[1..], e);
    }
  }

  /** `whole` is the id of a device without sockets that reads like the key of another's socket. */
  ghost predicate ReadsLikeASocket(whole: string, s: Option<Socket>, device: string, socket: Option<Socket>) {
    s.None? && socket.Some? && whole == TargetKey(device, socket)
  }

  /**
   Two targets share a key exactly when they are the same, or
   the one's device id is spelled like the other's socket key.
   */
  lemma {:induction false} TargetKeysMeetExactly(d1: string, s1: Option<Socket>, d2: string, s2: Option<Socket>)
    ensures TargetKey(d1, s1) == TargetKey(d2, s2) <==>
      (d1 == d2 && s1 == s2) || ReadsLikeASocket(d1, s1, d2, s2) || ReadsLikeASocket(d2, s2, d1, s1)
  {
    if s1.Some? && s2.Some? && TargetKey(d1, s1) == TargetKey(d2, s2) {
      var k := TargetKey(d1, s1);
      assert |k| == |d1| + 2 == |d2| + 2 && k[..|d1|] == d1 && k[..|d2|] == d2;
      assert k[|d1| + 1] == (if s1.value == 1 then '1' else '2') && k[|d2| + 1] == (if s2.value == 1 then '1' else '2');
    }
  }

  /** They can: a device called `a:1`, and the first socket of a device called `a`. */
  lemma {:induction false} TargetKeysCanMeet()
    ensures TargetKey("a:1", None) == TargetKey("a", Some(1)) && ("a:1", None) != ("a", Some(1))
  {
    TargetKeysMeetExactly("a:1", None, "a", Some(1));
  }

  /** Ids without a colon make target keys distinct. */
  lemma {:induction false} TargetKeysDistinct(d1: string, s1: Option<Socket>, d2: string, s2: Option<Socket>)
    requires ':' !in d1 && ':' !in d2 && TargetKey(d1, s1) == TargetKey(d2, s2)
    ensures d1 == d2 && s1 == s2
  {
    TargetKeysMeetExactly(d1, s1, d2, s2);
    assert s2.Some? ==> TargetKey(d2, s2)[|d2|] == ':';
    assert s1.Some? ==> TargetKey(d1, s1)[|d1|] == ':';
  }

  // ---------------------------------------------------------------- the queue is a fair semaphore

  ghost function Upto(n: int): seq<nat>
    requires n >= 0
  {
    seq(n, i => i)
  }

  /** The queue seen as a semaphore: everyone asked in order of issue, and all but those waiting were granted. */
  ghost function AsSem(s: State): Sem
    requires |s.waiting| <= |s.issued|
  {
    Sem(MAX_COMMANDS_IN_FLIGHT, Holders(s), s.waiting, Upto(|s.issued|), Upto(|s.issued| - |s.waiting|))
  }

  lemma {:induction false} QueueIsFair(s: State)
    requires Placed(s)
    ensures Fair(AsSem(s))
  {
    BelowMembers(|s.issued| - |s.waiting|);
    var g := Upto(|s.issued| - |s.waiting|);
    forall id | id in Holders(s) ensures id in g {
      assert id in Holders(s) + s.finished;
      assert g[id] == id;
    }
  }

  lemma {:induction false} AdmittedRefinesAcquire(s: State, e: Event)
    requires Placed(s) && e.Send? && s.inFlight < MAX_COMMANDS_IN_FLIGHT
    ensures |SendStep(s, e).waiting| <= |SendStep(s, e).issued|
    ensures AsSem(SendStep(s, e)) == Acquire(AsSem(s), |s.issued|)
  {
    var t := SendStep(s, e);
    assert Current(Admit(s, e), |s.issued|);
    assert t.waiting == s.waiting == [] && |t.issued| == |s.issued| + 1;
    assert Upto(|s.issued| + 1) == Upto(|s.issued|) + [|s.issued|];
    assert Holders(t) == Holders(s) + {|s.issued|};
  }

  lemma {:induction false} QueuedRefinesAcquire(s: State, e: Event)
    requires Placed(s) && e.Send? && s.inFlight >= MAX_COMMANDS_IN_FLIGHT
    ensures |SendStep(s, e).waiting| <= |SendStep(s, e).issued|
    ensures AsSem(SendStep(s, e)) == Acquire(AsSem(s), |s.issued|)
  {
    assert Upto(|s.issued| + 1) == Upto(|s.issued|) + [|s.issued|];
    assert Holders(SendStep(s, e)) == Holders(s);
  }

  lemma {:induction false} SendRefinesAcquire(s: State, e: Event)
    requires Placed(s) && e.Send?
    ensures |SendStep(s, e).waiting| <= |SendStep(s, e).issued|
    ensures AsSem(SendStep(s, e)) == Acquire(AsSem(s), |s.issued|)
  {
    if s.inFlight < MAX_COMMANDS_IN_FLIGHT {
      AdmittedRefinesAcquire(s, e);
    } else {
      QueuedRefinesAcquire(s, e);
    }
  }

  lemma {:induction false} FinishRefinesRelease(s: State, id: nat)
    requires Placed(s) && id in Holders(s)
    ensures |Finish(s, id).waiting| <= |s.issued|
    ensures AsSem(Finish(s, id)) == Release(AsSem(s), id)
  {
    if s.waiting == [] {
      IdleRefinesRelease(s, id);
    } else {
      HandOverRefinesRelease(s, id);
    }
  }

  lemma {:induction false} IdleRefinesRelease(s: State, id: nat)
    requires Placed(s) && id in Holders(s) && s.waiting == []
    ensures |Finish(s, id).waiting| <= |s.issued|
    ensures AsSem(Finish(s, id)) == Release(AsSem(s), id)
  {
    FinishWhenIdle(s, id);
    var f := Finish(s, id);
    assert f.waiting == [] && f.issued == s.issued;
  }

  lemma {:induction false} HandOverRefinesRelease(s: State, id: nat)
    requires EachInOnePlace(s) && id in Holders(s) && s.waiting != []
    ensures AsSem(Finish(s, id)) == Release(AsSem(s), id)
  {
    FinishHandsOver(s, id);
    FirstInLineIsNew(s);
    var n := |s.issued| - |s.waiting|;
    assert Upto(n + 1) == Upto(n) + [n];
    var f := Finish(s, id);
    assert f.waiting == s.waiting[1..] && f.issued == s.issued;
  }

  lemma {:induction false} AnswerRefinesRelease(s: State, id: nat, t: State)
    requires Placed(s) && id in s.onWire
    requires t == Finish(s, id).(pending := t.pending, cloudRecoveries := t.cloudRecoveries)
    ensures |t.waiting| <= |t.issued| && AsSem(t) == Release(AsSem(s), id)
  {
    FinishRefinesRelease(s, id);
    assert Holders(t) == Holders(Finish(s, id));
  }

  lemma {:induction false} DispatchRefines(s: State, id: nat, now: int)
    requires Placed(s) && id in s.granted && id < |s.issued|
    ensures |Dispatch(s, id, now).waiting| <= |s.issued|
    ensures AsSem(Dispatch(s, id, now)) == if Current(s, id) then AsSem(s) else Release(AsSem(s), id)
  {
    if Current(s, id) {
      assert Holders(Dispatch(s, id, now)) == Holders(s);
    } else {
      FinishRefinesRelease(s, id);
    }
  }

  /** The command whose slot this step gives back: an answer's, or a superseded turn's. */
  ghost function Releases(s: State, e: Event): Option<nat>
    requires Enabled(s, e)
  {
    match e
    case Resume(id, _) => if Current(s, id) then None else Some(id)
    case Ack(id, _, _) => Some(id)
    case Reject(id, _) => Some(id)
    case _ => None
  }

  lemma {:induction false} AckRefines(s: State, id: nat, viaCloud: bool, now: int)
    requires Placed(s) && id in s.onWire && id < |s.issued|
    ensures var t := AckStep(s, id, viaCloud, now);
            |t.waiting| <= |t.issued| && AsSem(t) == Release(AsSem(s), id)
  {
    AnswerRefinesRelease(s, id, AckStep(s, id, viaCloud, now));
  }

  lemma {:induction false} RejectRefines(s: State, id: nat, reason: string)
    requires Placed(s) && id in s.onWire && id < |s.issued|
    ensures var t := RejectStep(s, id, reason);
            |t.waiting| <= |t.issued| && AsSem(t) == Release(AsSem(s), id)
  {
    AnswerRefinesRelease(s, id, RejectStep(s, id, reason));
  }

  /** What a step is to the semaphore: one operation, or none. */
  ghost function SemStep(s: State, e: Event): Sem
    requires Enabled(s, e) && Placed(s)
  {
    if e.Send? then Acquire(AsSem(s), |s.issued|)
    else if Releases(s, e).Some? then Release(AsSem(s), Releases(s, e).value)
    else AsSem(s)
  }

  /** Every step is one semaphore operation or none: success, refusal and early return each release once. */
  lemma {:induction false} StepRefinesSemaphore(s: State, e: Event)
    requires Placed(s) && Enabled(s, e)
    ensures |Step(s, e).waiting| <= |Step(s, e).issued|
    ensures AsSem(Step(s, e)) == SemStep(s, e)
  {
    if e.Send? {
      SendRefinesAcquire(s, e);
    } else if e.Resume? {
      DispatchRefines(s, e.id, e.now);
    } else if e.Ack? {
      AckRefines(s, e.id, e.viaCloud, e.now);
    } else if e.Reject? {
      RejectRefines(s, e.id, e.reason);
    } else {
      assert Holders(Step(s, e)) == Holders(s);
    }
  }

  // ---------------------------------------------------------------- entries do not live for ever

  /** A frame that shows the entry's device and target, late enough for the threshold its phase waits for. */
  ghost predicate Ripe(s: State, e: Event, k: string) {
    && e.Reconcile? && k in s.pending
    && var p := s.pending[k];
       var row := RowFor(e.rows, p.device);
       && row.Some? && !IsTotals(row.value) && !ObservedIn(row.value, p.socket).Undefined?
       && (if p.phase.Failed? then e.now - p.issuedAt > FAILED_SWEEP_MS
           else if p.ackedAt.None? then e.now - p.issuedAt > LEAK_GUARD_MS
           else e.now - p.ackedAt.value >= COMMAND_CONFIRM_MS)
  }

  ghost function RipeFrames(s: State, es: seq<Event>, k: string): nat
    requires Runs(s, es)
    decreases |es|
  {
    if es == [] then 0
    else (if Ripe(s, es[0], k) then 1 else 0) + RipeFrames(Step(s, es[0]), es[1..], k)
  }

  /** Nobody issues another command for `k`. */
  ghost predicate NoNewCommand(es: seq<Event>, k: string) {
    forall i | 0 <= i < |es| && es[i].Send? :: TargetKey(es[i].device, es[i].socket) != k
  }

  /** What may still happen to an entry: its answer, and the frames that fail and sweep it. */
  ghost function Rank(s: State, k: string): nat {
    if k !in s.pending then 0
    else
      var p := s.pending[k];
      (if p.id !in s.finished then 1 else 0) + (if p.phase.Failed? then 1 else 2)
  }

  lemma {:induction false} RankOfAnswer(s: State, id: nat, t: State, k: string)
    requires Safe(s) && id in s.onWire && k in s.pending
    requires t == Finish(s, id).(pending := t.pending, cloudRecoveries := t.cloudRecoveries)
    requires OnlyOwnEntry(s, t, id)
    ensures Rank(t, k) <= Rank(s, k)
  {
    var c := s.pending[k].id;
    if c == id {
      RankOfOwnAnswer(s, id, t, k);
    } else {
      assert Rank(t, k) == Rank(s, k);
    }
  }

  lemma {:induction false} RankOfOwnAnswer(s: State, id: nat, t: State, k: string)
    requires Safe(s) && id in s.onWire && k in s.pending && s.pending[k].id == id
    requires t == Finish(s, id).(pending := t.pending, cloudRecoveries := t.cloudRecoveries)
    requires k in t.pending && t.pending[k].id == id
    ensures Rank(t, k) <= 2 <= Rank(s, k)
  {
    BelowMembers(|s.issued| - |s.waiting|);
    assert id !in s.finished;
  }

  lemma {:induction false} RankOfDispatch(s: State, id: nat, now: int, k: string)
    requires Safe(s) && id in s.granted && id < |s.issued| && k in s.pending
    ensures Rank(Dispatch(s, id, now), k) <= Rank(s, k)
  {
    assert EntryTrue(s, k, s.pending[k]);
    assert s.pending[k].id == id ==> s.issued[id].key == k && Current(s, id);
  }

  lemma {:induction false} RankOfSend(s: State, e: Event, k: string)
    requires Safe(s) && e.Send? && TargetKey(e.device, e.socket) != k && k in s.pending
    ensures Rank(SendStep(s, e), k) == Rank(s, k)
  {
    assert EntryTrue(s, k, s.pending[k]);
    var t := SendStep(s, e);
    if s.inFlight < MAX_COMMANDS_IN_FLIGHT {
      assert Current(Admit(s, e), |s.issued|);
    }
    assert t.pending[k] == s.pending[k] && t.finished == s.finished;
  }

  lemma {:induction false} RankOfFrame(s: State, e: Event, k: string)
    requires Safe(s) && e.Reconcile? && k in s.pending
    ensures Rank(Step(s, e), k) + (if Ripe(s, e, k) then 1 else 0) <= Rank(s, k)
  {
    assert EntryTrue(s, k, s.pending[k]);
    var v := Judge(s.pending[k], RowFor(e.rows, s.pending[k].device), e.now);
    assert Ripe(s, e, k) ==> !v.Keep?;
  }

  lemma {:induction false} RankOfAck(s: State, id: nat, viaCloud: bool, now: int, k: string)
    requires Safe(s) && id in s.onWire && id < |s.issued| && k in s.pending
    ensures Rank(AckStep(s, id, viaCloud, now), k) <= Rank(s, k)
  {
    AckTouchesOnlyItsOwn(s, id, viaCloud, now);
    RankOfAnswer(s, id, AckStep(s, id, viaCloud, now), k);
  }

  lemma {:induction false} RankOfReject(s: State, id: nat, reason: string, k: string)
    requires Safe(s) && id in s.onWire && id < |s.issued| && k in s.pending
    ensures Rank(RejectStep(s, id, reason), k) <= Rank(s, k)
  {
    RejectTouchesOnlyItsOwn(s, id, reason);
    RankOfAnswer(s, id, RejectStep(s, id, reason), k);
  }

  lemma {:induction false} RankFalls(s: State, e: Event, k: string)
    requires Safe(s) && Enabled(s, e) && (e.Send? ==> TargetKey(e.device, e.socket) != k)
    ensures Rank(Step(s, e), k) + (if Ripe(s, e, k) then 1 else 0) <= Rank(s, k)
  {
    if k !in s.pending {
      StaysAbsent(s, e, k);
    } else if e.Send? {
      RankOfSend(s, e, k);
    } else if e.Resume? {
      RankOfDispatch(s, e.id, e.now, k);
    } else if e.Ack? {
      RankOfAck(s, e.id, e.viaCloud, e.now, k);
    } else if e.Reject? {
      RankOfReject(s, e.id, e.reason, k);
    } else if e.Reconcile? {
      RankOfFrame(s, e, k);
    }
  }

  lemma {:induction false} StaysAbsent(s: State, e: Event, k: string)
    requires Enabled(s, e) && k !in s.pending && (e.Send? ==> TargetKey(e.device, e.socket) != k)
    ensures k !in Step(s, e).pending
  {
    match e
    case Send(_, _, _, _, _) => assert k !in SendStep(s, e).pending;
    case Resume(id, now) => assert k !in Dispatch(s, id, now).pending;
    case Ack(id, viaCloud, now) => assert k !in AckStep(s, id, viaCloud, now).pending;
    case Reject(id, reason) => assert k !in RejectStep(s, id, reason).pending;
    case Reconcile(_, _) =>
    case Dismiss(_) =>
  }

  lemma {:induction false} RipeFramesAreFew(s: State, es: seq<Event>, k: string)
    requires Safe(s) && Runs(s, es) && NoNewCommand(es, k)
    ensures RipeFrames(s, es, k) + Rank(End(s, es), k) <= Rank(s, k)
    decreases |es|
  {
    if es != [] {
      RankFalls(s, es[0], k);
      StepKeepsSafe(s, es[0]);
      assert forall i | 0 <= i < |es[1..]| :: es[1..][i] == es[i + 1];
      RipeFramesAreFew(Step(s, es[0]), es[1..], k);
    }
  }

  /**
   An entry nobody renews is gone after at most three frames that are late enough, whatever else happens meanwhile.
   */
  lemma {:induction false} PendingDoesNotLiveForEver(s: State, es: seq<Event>, k: string)
    requires Safe(s) && Runs(s, es) && NoNewCommand(es, k)
    requires RipeFrames(s, es, k) >= 3
    ensures k !in End(s, es).pending
  {
    RipeFramesAreFew(s, es, k);
  }

  lemma {:induction false} RipeFramesMore(s: State, es: seq<Event>, e: Event, k: string)
    requires Runs(s, es) && Enabled(End(s, es), e)
    ensures Runs(s, es + [e])
    ensures RipeFrames(s, es + [e], k) == RipeFrames(s, es, k) + (if Ripe(End(s, es), e, k) then 1 else 0)
    decreases |es|
  {
    OneMoreStep(s, es, e);
    if es == [] {
      assert es + [e] == [e] && [e][1..] == [];
    } else {
      assert (es + [e])[1..] == es[1..] + [e];
      RipeFramesMore(Step(s, es[0]), es[1..], e, k);
    }
  }

  // ---------------------------------------------------------------- a queued command

  /**
   The re-stamp at dispatch does not cover the wait before it: a frame fails the entry of a command still in
   the queue exactly when it shows the target, does not show it done, and comes half a minute after the queueing.
   */
  lemma {:induction false} QueuedCommandsFailExactly(s: State, k: string, e: Event)
    requires Safe(s) && k in s.pending && e.Reconcile?
    requires s.pending[k].phase.Sending? && s.pending[k].id in s.waiting
    ensures var p := s.pending[k];
            (k in Step(s, e).pending && Step(s, e).pending[k].phase.Failed?) <==>
            && Shown(e.rows, s.issued[p.id]) && !ShowsDone(e.rows, s.issued[p.id], e.now)
            && e.now - p.issuedAt > LEAK_GUARD_MS
  {
    assert EntryTrue(s, k, s.pending[k]);
    FramesFailExactly(s, e.rows, e.now, k);
  }

  /** No event of the run renews, dismisses or drops the entry of `k`. */
  ghost predicate Undisturbed(s: State, es: seq<Event>, k: string)
    requires Runs(s, es)
    decreases |es|
  {
    es == [] || (
      && (es[0].Send? ==> TargetKey(es[0].device, es[0].socket) != k)
      && es[0] != Dismiss(k)
      && (es[0].Reconcile? && k in s.pending ==>
         !Judge(s.pending[k], RowFor(es[0].rows, s.pending[k].device), es[0].now).Drop?)
      && Undisturbed(Step(s, es[0]), es[1..], k))
  }

  lemma {:induction false} EntryStays(s: State, e: Event, k: string)
    requires Enabled(s, e) && k in s.pending
    requires e.Send? ==> TargetKey(e.device, e.socket) != k
    requires e != Dismiss(k)
    requires e.Reconcile? ==> !Judge(s.pending[k], RowFor(e.rows, s.pending[k].device), e.now).Drop?
    ensures k in Step(s, e).pending && Step(s, e).pending[k].id == s.pending[k].id
  {
    if e.Ack? || e.Reject? || e.Resume? {
      AnswersTouchOnlyTheirOwn(s, e);
    } else if e.Send? {
      var t := SendStep(s, e);
      assert t.pending[k] == s.pending[k];
    }
  }

  lemma {:induction false} UndisturbedStays(s: State, es: seq<Event>, k: string)
    requires Safe(s) && Runs(s, es) && Undisturbed(s, es, k) && k in s.pending
    ensures k in End(s, es).pending && End(s, es).pending[k].id == s.pending[k].id
    decreases |es|
  {
    if es != [] {
      EntryStays(s, es[0], k);
      StepKeepsSafe(s, es[0]);
      UndisturbedStays(Step(s, es[0]), es[1..], k);
    }
  }

  /**
   And the command is sent all the same: in every run after that frame that leaves the entry in place, the
   turn of the command puts it on the wire.
   */
  lemma {:induction false} FailedInTheQueueIsStillSent(s: State, k: string, e: Event, es: seq<Event>, later: int)
    requires Safe(s) && k in s.pending && e.Reconcile? && s.pending[k].phase.Sending? && s.pending[k].id in s.waiting
    requires k in Step(s, e).pending && Step(s, e).pending[k].phase.Failed?
    requires Runs(Step(s, e), es) && Undisturbed(Step(s, e), es, k)
    requires Enabled(End(Step(s, e), es), Resume(s.pending[k].id, later))
    ensures var t := End(Step(s, e), es);
            Step(t, Resume(s.pending[k].id, later)).wire == t.wire + [s.pending[k].id]
  {
    StepKeepsSafe(s, e);
    UndisturbedStays(Step(s, e), es, k);
    RunsAreSafe(Step(s, e), es);
    var t := End(Step(s, e), es);
    assert EntryTrue(t, k, t.pending[k]);
  }

  // ---------------------------------------------------------------- runs that keep time

  /**
   The store and its clock: when each command on the wire went out, for its own timeout fails it five seconds later.
   */
  datatype Timed = Timed(s: State, now: int, sent: map<nat, int>)

  datatype Moment = Moment(at: int, event: Event)

  predicate ReadsTheClock(m: Moment) {
    match m.event
    case Send(_, _, _, _, now) => now == m.at
    case Resume(_, now) => now == m.at
    case Ack(_, _, now) => now == m.at
    case Reconcile(_, now) => now == m.at
    case _ => true
  }

  /**
   The event can come at that instant: no command is overdue by
   then, and one granted a slot resumes before anything else.
   */
  ghost predicate InTime(k: Timed, m: Moment) {
    && Enabled(k.s, m.event) && ReadsTheClock(m) && k.now <= m.at
    && (forall id | id in k.s.onWire :: id in k.sent && m.at <= k.sent[id] + COMMAND_TIMEOUT_MS)
    && (k.s.granted != {} ==> m.event.Resume? && m.at == k.now)
  }

  ghost function Tick(k: Timed, m: Moment): Timed
    requires InTime(k, m)
  {
    var t := Step(k.s, m.event);
    Timed(t, m.at, map id | id in t.onWire :: if id in k.s.onWire && id in k.sent then k.sent[id] else m.at)
  }

  const START := Timed(INITIAL, 0, map[])

  /** Where a run of moments leads, if each comes in time. */
  ghost function After(ms: seq<Moment>): Option<Timed> {
    if ms == [] then Some(START)
    else
      var before, m := After(ms[..|ms| - 1]), ms[|ms| - 1];
      if before.Some? && InTime(before.value, m) then Some(Tick(before.value, m)) else None
  }

  ghost function Events(ms: seq<Moment>): seq<Event> {
    if ms == [] then [] else Events(ms[..|ms| - 1]) + [ms[|ms| - 1].event]
  }

  /** A run that keeps time is a run, so it keeps all that every run keeps. */
  lemma {:induction false} TimedRunsAreRuns(ms: seq<Moment>)
    requires After(ms).Some?
    ensures Runs(INITIAL, Events(ms)) && End(INITIAL, Events(ms)) == After(ms).value.s && Safe(After(ms).value.s)
  {
    if ms != [] {
      var front, m := ms[..|ms| - 1], ms[|ms| - 1];
      TimedRunsAreRuns(front);
      OneMoreStep(INITIAL, Events(front), m.event);
    }
    EveryRunIsSafe(Events(ms));
  }

  /** Some run that keeps time comes to `k`, and `n` of its frames were ripe for the entry of `key`. */
  ghost predicate ComesTo(k: Timed, key: string, n: nat) {
    exists ms :: TimedRun(ms, k, key, n)
  }

  ghost predicate TimedRun(ms: seq<Moment>, k: Timed, key: string, n: nat) {
    After(ms) == Some(k) && Runs(INITIAL, Events(ms)) && RipeFrames(INITIAL, Events(ms), key) == n
  }

  lemma {:induction false} ComesToStart(key: string)
    ensures ComesTo(START, key, 0)
  {
    assert TimedRun([], START, key, 0);
  }

  lemma {:induction false} ComesOn(k: Timed, m: Moment, key: string, n: nat)
    requires ComesTo(k, key, n) && InTime(k, m)
    ensures ComesTo(Tick(k, m), key, n + if Ripe(k.s, m.event, key) then 1 else 0)
  {
    var ms :| TimedRun(ms, k, key, n);
    var more := ms + [m];
    assert more[..|more| - 1] == ms;
    TimedRunsAreRuns(ms);
    RipeFramesMore(INITIAL, Events(ms), m.event, key);
    assert Events(more) == Events(ms) + [m.event];
    assert TimedRun(more, Tick(k, m), key, n + if Ripe(k.s, m.event, key) then 1 else 0);
  }

  // ---------------------------------------------------------------- a queue of twenty-nine

  /** Twenty-nine devices, told apart by the length of their names; the last waits longest. */
  function Device(n: nat): (d: string)
    ensures |d| == n + 1 && d[0] == 'd'
  {
    "d" + seq(n, i => '1')
  }

  const LAST := 28

  ghost predicate Between(ids: set<nat>, lo: nat, hi: nat) {
    forall id :: id in ids <==> lo <= id < hi
  }

  ghost predicate InLine(waiting: seq<nat>, lo: nat, hi: nat) {
    |waiting| == (if lo < hi then hi - lo else 0) && forall i | 0 <= i < |waiting| :: waiting[i] == lo + i
  }

  /** One command to each of the first `n` devices, each still the one wanted. */
  ghost predicate OneEach(s: State, n: nat) {
    |s.issued| == n && forall i: nat | i < n :: IsWanted(s, i)
  }

  ghost predicate IsWanted(s: State, i: nat) {
    && i < |s.issued| && s.issued[i] == Command(Device(i), Device(i), None, On)
    && Device(i) in s.pending && IsOf(s.pending[Device(i)], i)
  }

  predicate IsOf(p: Pending, i: nat) { p.id == i && p.device == Device(i) }

  ghost predicate HasEntry(s: State, i: nat, p: Pending) {
    Device(i) in s.pending && s.pending[Device(i)] == p
  }

  ghost predicate SameEntry(s: State, t: State, i: nat) {
    Device(i) in s.pending && HasEntry(t, i, s.pending[Device(i)])
  }

  ghost predicate SentAtFives(k: Timed) {
    forall id | id in k.s.onWire :: id in k.sent && k.sent[id] == 5000 * (id / 4)
  }

  function Asking(i: nat): Event { Send(Device(i), None, On, Unknown, 0) }
  function Asked(i: nat): Pending { Pending(i, Device(i), None, On, Unknown, Sending, 0, None, None) }

  /** The first four are on the wire, the others in line. */
  ghost predicate AllAsked(k: Timed, n: nat) {
    && OneEach(k.s, n) && k.now == 0 && k.s.granted == {} && k.s.inFlight == (if n < 4 then n else 4)
    && Between(k.s.onWire, 0, if n < 4 then n else 4) && InLine(k.s.waiting, 4, n) && SentAtFives(k)
    && (n > 0 ==> HasEntry(k.s, n - 1, Asked(n - 1)))
  }

  lemma {:induction false} AsksOne(k: Timed, n: nat)
    requires AllAsked(k, n)
    ensures InTime(k, Moment(0, Asking(n))) && AllAsked(Tick(k, Moment(0, Asking(n))), n + 1)
  {
    var m := Moment(0, Asking(n));
    AskedStep(k.s, n);
    var t := Tick(k, m);
    forall i: nat | i <= n ensures IsWanted(t.s, i) {
      assert i < n ==> IsWanted(k.s, i);
      assert i < n ==> |Device(i)| < |Device(n)|;
    }
    assert OneEach(t.s, n + 1);
  }

  lemma {:induction false} AskedStep(s: State, n: nat)
    requires |s.issued| == n && s.granted == {}
    ensures var t := Step(s, Asking(n));
            && t.issued == s.issued + [Command(Device(n), Device(n), None, On)] && t.granted == {}
            && t.pending == s.pending[Device(n) := Asked(n)]
            && (if s.inFlight < 4
                then t.onWire == s.onWire + {n} && t.inFlight == s.inFlight + 1 && t.waiting == s.waiting
                else t.onWire == s.onWire && t.inFlight == s.inFlight && t.waiting == s.waiting + [n])
  {
    if s.inFlight < 4 {
      assert Current(Admit(s, Asking(n)), n);
      assert Admit(s, Asking(n)).granted - {n} == {};
    }
  }

  lemma {:induction false} AllAreAsked(n: nat) returns (k: Timed)
    ensures ComesTo(k, Device(LAST), 0) && AllAsked(k, n)
  {
    if n == 0 {
      k := START;
      ComesToStart(Device(LAST));
    } else {
      var before := AllAreAsked(n - 1);
      var m := Moment(0, Asking(n - 1));
      AsksOne(before, n - 1);
      ComesOn(before, m, Device(LAST), 0);
      k := Tick(before, m);
    }
  }

  /** Commands `j` to `j + 3` are on the wire and the later ones in line, and `p` is the last one's entry. */
  ghost predicate Turned(k: Timed, j: nat, p: Pending) {
    && OneEach(k.s, LAST + 1) && HasEntry(k.s, LAST, p) && k.s.granted == {} && k.s.inFlight == 4
    && Between(k.s.onWire, j, j + 4) && InLine(k.s.waiting, j + 4, LAST + 1) && SentAtFives(k)
       && k.now <= 5000 * (j / 4) + 5000
  }

  /** Command `j` is refused and its slot given to `j + 4`. */
  ghost predicate Given(k: Timed, j: nat, p: Pending) {
    && OneEach(k.s, LAST + 1) && HasEntry(k.s, LAST, p) && k.s.granted == {j + 4} && k.s.inFlight == 4
    && Between(k.s.onWire, j + 1, j + 4) && InLine(k.s.waiting, j + 5, LAST + 1) && SentAtFives(k)
       && k.now == 5000 * (j / 4) + 5000
  }

  /** A command already answered for leaves every other command's entry, and keeps its own. */
  lemma {:induction false} StillOneEach(s: State, t: State, id: nat, n: nat)
    requires OneEach(s, n) && OnlyOwnEntry(s, t, id) && id < n && t.issued == s.issued
    requires Device(id) in t.pending && IsOf(t.pending[Device(id)], id)
    ensures OneEach(t, n) && forall i: nat | i < n && i != id :: SameEntry(s, t, i)
  {
    forall i: nat | i < n ensures IsWanted(t, i) && (i != id ==> SameEntry(s, t, i)) {
      assert IsWanted(s, i) && IsWanted(s, id);
      assert i != id ==> |Device(i)| != |Device(id)|;
    }
  }

  lemma {:induction false} Refuses(k: Timed, j: nat, p: Pending)
    requires Turned(k, j, p) && j + 4 <= LAST
    ensures InTime(k, Moment(5000 * (j / 4) + 5000, Reject(j, "timed out")))
    ensures Given(Tick(k, Moment(5000 * (j / 4) + 5000, Reject(j, "timed out"))), j, p)
  {
    var m := Moment(5000 * (j / 4) + 5000, Reject(j, "timed out"));
    var t := Tick(k, m);
    assert IsWanted(k.s, j);
    RefusedStep(k.s, j);
    StillOneEach(k.s, t.s, j, LAST + 1);
    assert SameEntry(k.s, t.s, LAST);
  }

  lemma {:induction false} RefusedStep(s: State, id: nat)
    requires IsWanted(s, id) && id in s.onWire && s.granted == {}
    ensures var t := Step(s, Reject(id, "timed out"));
            && OnlyOwnEntry(s, t, id) && t.issued == s.issued && t.onWire == s.onWire - {id}
            && Device(id) in t.pending && IsOf(t.pending[Device(id)], id)
            && (if s.waiting == [] then t.granted == {} && t.waiting == [] && t.inFlight == s.inFlight - 1
                else t.granted == {s.waiting[0]} && t.waiting == s.waiting[1..] && t.inFlight == s.inFlight)
  {
    RejectTouchesOnlyItsOwn(s, id, "timed out");
  }

  /** The last command's entry after `j` gave its slot up. */
  function Stamped(p: Pending, j: nat): Pending {
    if j + 4 == LAST then p.(issuedAt := 5000 * (j / 4) + 5000) else p
  }

  lemma {:induction false} Resumes(k: Timed, j: nat, p: Pending)
    requires Given(k, j, p) && j + 4 <= LAST
    ensures InTime(k, Moment(k.now, Resume(j + 4, k.now)))
    ensures var t := Tick(k, Moment(k.now, Resume(j + 4, k.now)));
            Turned(t, j + 1, Stamped(p, j)) && t.s.wire == k.s.wire + [j + 4] && t.now == k.now
  {
    var m := Moment(k.now, Resume(j + 4, k.now));
    var t := Tick(k, m);
    assert IsWanted(k.s, j + 4);
    ResumedStep(k.s, j + 4, k.now);
    StillOneEach(k.s, t.s, j + 4, LAST + 1);
    assert j + 4 != LAST ==> SameEntry(k.s, t.s, LAST);
    ResumedOnTime(k, t, j);
  }

  lemma {:induction false} ResumedOnTime(k: Timed, t: Timed, j: nat)
    requires Between(k.s.onWire, j + 1, j + 4) && SentAtFives(k) && k.now == 5000 * (j / 4) + 5000
    requires t.s.onWire == k.s.onWire + {j + 4} && t.now == k.now
    requires t.sent == map id | id in t.s.onWire :: if id in k.s.onWire && id in k.sent then k.sent[id] else k.now
    ensures Between(t.s.onWire, j + 1, j + 5) && SentAtFives(t) && t.now <= 5000 * ((j + 1) / 4) + 5000
  {
    assert (j + 4) / 4 == j / 4 + 1 && j / 4 <= (j + 1) / 4;
  }

  lemma {:induction false} ResumedStep(s: State, id: nat, now: int)
    requires IsWanted(s, id) && s.granted == {id}
    ensures var t := Step(s, Resume(id, now));
            && OnlyOwnEntry(s, t, id) && t.issued == s.issued && t.onWire == s.onWire + {id} && t.wire == s.wire + [id]
            && HasEntry(t, id, s.pending[Device(id)].(issuedAt := now))
            && t.granted == {} && t.waiting == s.waiting && t.inFlight == s.inFlight
  {
    DispatchTouchesOnlyItsOwn(s, id, now);
    assert s.granted - {id} == {};
  }

  /** Refused five seconds on, each command in turn gives its slot to the fourth after it. */
  lemma {:induction false} TurnOver(k: Timed, j: nat, p: Pending, n: nat) returns (t: Timed)
    requires ComesTo(k, Device(LAST), n) && Turned(k, j, p) && j + 4 <= LAST
    ensures ComesTo(t, Device(LAST), n) && Turned(t, j + 1, Stamped(p, j)) && t.now == 5000 * (j / 4) + 5000
    ensures t.s.wire != [] && t.s.wire[|t.s.wire| - 1] == j + 4
  {
    var m := Moment(5000 * (j / 4) + 5000, Reject(j, "timed out"));
    Refuses(k, j, p);
    ComesOn(k, m, Device(LAST), n);
    var given := Tick(k, m);
    var turn := Moment(given.now, Resume(j + 4, given.now));
    Resumes(given, j, p);
    ComesOn(given, turn, Device(LAST), n);
    t := Tick(given, turn);
  }

  /** How the refusals stand before the last command's turn: in fours, five seconds apart. */
  ghost predicate TurnedBy(k: Timed, j: nat) {
    Turned(k, j, Asked(LAST)) && k.now <= 5000 * ((j + 3) / 4)
  }

  lemma {:induction false} TurnsOver(j: nat) returns (k: Timed)
    requires j + 4 <= LAST
    ensures ComesTo(k, Device(LAST), 0) && TurnedBy(k, j)
  {
    if j == 0 {
      k := FirstTurned();
    } else {
      var before := TurnsOver(j - 1);
      k := TurnsOneMore(before, j - 1, j);
    }
  }

  lemma {:induction false} TurnsOneMore(k: Timed, j: nat, next: nat) returns (t: Timed)
    requires ComesTo(k, Device(LAST), 0) && TurnedBy(k, j) && next == j + 1 && j + 4 < LAST
    ensures ComesTo(t, Device(LAST), 0) && TurnedBy(t, next)
  {
    t := TurnOver(k, j, Asked(LAST), 0);
    assert (j + 4) / 4 == j / 4 + 1;
  }

  lemma {:induction false} FirstTurned() returns (k: Timed)
    ensures ComesTo(k, Device(LAST), 0) && TurnedBy(k, 0)
  {
    k := AllAreAsked(LAST + 1);
    FirstTurn(k);
  }

  lemma {:induction false} FirstTurn(k: Timed)
    requires AllAsked(k, LAST + 1)
    ensures TurnedBy(k, 0)
  {}

  /** A frame with one row, that shows the last device switched off. */
  function Shows(now: int): seq<Row> { [Row(Device(LAST), Some(now), Some(true), Is(Off), map[], None)] }

  lemma {:induction false} FrameOfTheLast(s: State, p: Pending, now: int)
    requires OneEach(s, LAST + 1) && HasEntry(s, LAST, p) && p.device == Device(LAST) && p.socket.None? && p.desired.On?
      && !p.phase.Failed?
    ensures var t := Step(s, Reconcile(Shows(now), now));
            && OneEach(t, LAST + 1) && t == s.(pending := t.pending)
            && HasEntry(t, LAST, AfterVerdict(p, Judge(p, Some(Shows(now)[0]), now)))
  {
    var t := Step(s, Reconcile(Shows(now), now));
    forall i: nat | i <= LAST ensures IsWanted(t, i) {
      assert IsWanted(s, i);
      assert i < LAST ==> |Device(i)| < |Device(LAST)|;
      LoneRow(Shows(now)[0], Device(i));
    }
  }

  lemma {:induction false} LoneRow(row: Row, device: string)
    ensures RowFor([row], device) == if row.device == device then Some(row) else None
  {
    assert [row][..0] == [];
  }

  /** The last command's entry once it is failed as never having reached the bridge. */
  function Unreached(issuedAt: int): Pending {
    Pending(LAST, Device(LAST), None, On, Unknown, Failed, issuedAt, None, Some(NeverReached))
  }

  /** The frame half a minute on finds the last command still in line, and fails it. */
  lemma {:induction false} FrameFails(k: Timed, m: Moment)
    requires TurnedBy(k, LAST - 4) && m == Moment(30001, Reconcile(Shows(30001), 30001))
    ensures InTime(k, m) && Ripe(k.s, m.event, Device(LAST)) && Turned(Tick(k, m), LAST - 4, Unreached(0))
  {
    FrameIsRipe(k.s);
    FrameInTime(k, LAST - 4);
  }

  lemma {:induction false} FrameInTime(k: Timed, j: nat)
    requires Turned(k, j, Asked(LAST)) && j == LAST - 4 && k.now <= 30001
    ensures InTime(k, Moment(30001, Reconcile(Shows(30001), 30001)))
    ensures Turned(Tick(k, Moment(30001, Reconcile(Shows(30001), 30001))), j, Unreached(0))
  {
    FrameOfTheLast(k.s, Asked(LAST), 30001);
  }

  lemma {:induction false} FrameIsRipe(s: State)
    requires HasEntry(s, LAST, Asked(LAST))
    ensures Ripe(s, Reconcile(Shows(30001), 30001), Device(LAST))
  {
    LoneRow(Shows(30001)[0], Device(LAST));
  }

  lemma {:induction false} FailsInLine() returns (k: Timed)
    ensures ComesTo(k, Device(LAST), 1) && Turned(k, LAST - 4, Unreached(0))
  {
    var before := TurnsOver(LAST - 4);
    var m := Moment(30001, Reconcile(Shows(30001), 30001));
    FrameFails(before, m);
    ComesOn(before, m, Device(LAST), 0);
    k := Tick(before, m);
  }

  lemma {:induction false} StampedLast()
    ensures Stamped(Unreached(0), LAST - 4) == Unreached(35000)
  {}

  /** Its turn comes all the same. */
  lemma {:induction false} SentAfterFailing() returns (k: Timed)
    ensures ComesTo(k, Device(LAST), 1) && Turned(k, LAST - 3, Unreached(35000))
    ensures k.s.wire != [] && k.s.wire[|k.s.wire| - 1] == LAST
  {
    var before := FailsInLine();
    StampedLast();
    k := TurnOver(before, LAST - 4, Unreached(0), 1);
  }

  /**
   A run that shows it: with each command on the wire refused in time, the
   last is shown as never having reached the bridge, and then goes to it.
   */
  lemma {:induction false} FailedInTheQueueThenSent()
    ensures exists ms :: After(ms).Some? && UnreachedYetSent(After(ms).value.s)
  {
    var k := SentAfterFailing();
    assert UnreachedYetSent(k.s);
    var ms :| TimedRun(ms, k, Device(LAST), 1);
    assert After(ms) == Some(k);
  }

  /** The last command to go out is shown as never having reached the bridge. */
  ghost predicate UnreachedYetSent(s: State) {
    && s.wire != [] && s.wire[|s.wire| - 1] == LAST && Device(LAST) in s.pending
    && var p := s.pending[Device(LAST)]; p.id == LAST && p.phase.Failed? && p.error == Some(NeverReached)
  }

  /** Only the last is on the wire with those from `j` on, and nobody is in line. */
  ghost predicate Ending(k: Timed, j: nat, p: Pending) {
    && OneEach(k.s, LAST + 1) && HasEntry(k.s, LAST, p) && k.s.granted == {} && k.s.waiting == []
    && Between(k.s.onWire, j, LAST + 1) && SentAtFives(k) && k.now <= 35000
  }

  lemma {:induction false} RefusesLate(k: Timed, j: nat, p: Pending)
    requires Ending(k, j, p) && LAST - 3 <= j < LAST
    ensures InTime(k, Moment(35000, Reject(j, "timed out")))
      && Ending(Tick(k, Moment(35000, Reject(j, "timed out"))), j + 1, p)
  {
    var t := Tick(k, Moment(35000, Reject(j, "timed out")));
    assert IsWanted(k.s, j);
    RefusedStep(k.s, j);
    StillOneEach(k.s, t.s, j, LAST + 1);
    assert SameEntry(k.s, t.s, LAST);
  }

  lemma {:induction false} LastAlone(k: Timed, j: nat, p: Pending, n: nat) returns (t: Timed)
    requires ComesTo(k, Device(LAST), n) && Ending(k, j, p) && LAST - 3 <= j <= LAST
    ensures ComesTo(t, Device(LAST), n) && Ending(t, LAST, p)
    decreases LAST - j
  {
    if j == LAST {
      t := k;
    } else {
      var m := Moment(35000, Reject(j, "timed out"));
      RefusesLate(k, j, p);
      ComesOn(k, m, Device(LAST), n);
      t := LastAlone(Tick(k, m), j + 1, p, n);
    }
  }

  lemma {:induction false} LastOnTheWire() returns (k: Timed)
    ensures ComesTo(k, Device(LAST), 1) && Ending(k, LAST, Unreached(35000))
  {
    var sent := SentAfterFailing();
    TurnedIsEnding(sent, Unreached(35000));
    k := LastAlone(sent, LAST - 3, Unreached(35000), 1);
  }

  lemma {:induction false} TurnedIsEnding(k: Timed, p: Pending)
    requires Turned(k, LAST - 3, p)
    ensures Ending(k, LAST - 3, p)
  {}

  /** The bridge acknowledges it a second later. */
  lemma {:induction false} AckedAfterFailing() returns (k: Timed)
    ensures ComesTo(k, Device(LAST), 1) && OneEach(k.s, LAST + 1) && k.s.onWire == {} && k.s.granted == {}
      && k.now == 36000
    ensures HasEntry(k.s, LAST, Unreached(35000).(phase := Confirming, ackedAt := Some(36000)))
  {
    var before := LastOnTheWire();
    var m := Moment(36000, Ack(LAST, false, 36000));
    AcksLast(before);
    ComesOn(before, m, Device(LAST), 1);
    k := Tick(before, m);
  }

  lemma {:induction false} AcksLast(k: Timed)
    requires Ending(k, LAST, Unreached(35000))
    ensures InTime(k, Moment(36000, Ack(LAST, false, 36000)))
    ensures var s := Step(k.s, Ack(LAST, false, 36000));
            && OneEach(s, LAST + 1) && s.onWire == {} && s.granted == {}
            && HasEntry(s, LAST, Unreached(35000).(phase := Confirming, ackedAt := Some(36000)))
  {
    assert IsWanted(k.s, LAST);
    AckTouchesOnlyItsOwn(k.s, LAST, false, 36000);
    StillOneEach(k.s, Step(k.s, Ack(LAST, false, 36000)), LAST, LAST + 1);
  }

  /** A run that shows it: the leak guard fails a command in the queue, and the bridge then acknowledges it. */
  lemma {:induction false} ConfirmingWithAnError()
    ensures exists ms :: After(ms).Some? && ConfirmingUnreached(After(ms).value.s, Device(LAST))
  {
    var k := AckedAfterFailing();
    assert ConfirmingUnreached(k.s, Device(LAST));
    var ms :| TimedRun(ms, k, Device(LAST), 1);
    assert After(ms) == Some(k);
  }

  ghost predicate ConfirmingUnreached(s: State, key: string) {
    key in s.pending && s.pending[key].phase.Confirming? && s.pending[key].error == Some(NeverReached)
  }

  /** Two such frames may not be enough: failed in the queue, confirmed by the answer, failed again. */
  lemma {:induction false} TwoRipeFramesMayNotDo()
    ensures exists ms ::
      && After(ms).Some? && Device(LAST) in After(ms).value.s.pending
      && Runs(INITIAL, Events(ms)) && RipeFrames(INITIAL, Events(ms), Device(LAST)) == 2
  {
    var before := AckedAfterFailing();
    var p := before.s.pending[Device(LAST)];
    var m := Moment(42000, Reconcile(Shows(42000), 42000));
    FrameOfTheLast(before.s, p, 42000);
    LoneRow(Shows(42000)[0], Device(LAST));
    ComesOn(before, m, Device(LAST), 1);
    var ms :| TimedRun(ms, Tick(before, m), Device(LAST), 2);
    assert After(ms).value.s == Tick(before, m).s;
  }

  // ---------------------------------------------------------------- the store itself

  /** The loop of `reconcile` over the entries, each judged on its own. */
  method ReconcileAll(pending: map<string, Pending>, rows: seq<Row>, now: int) returns (next: map<string, Pending>)
    ensures next == Reconciled(pending, rows, now)
  {
    next := pending;
    var todo := pending.Keys;
    while todo != {}
      invariant todo <= pending.Keys
      invariant next.Keys == set k | k in pending
        && (k in todo || !Judge(pending[k], RowFor(rows, pending[k].device), now).Drop?)
      invariant forall k | k in next ::
                  next[k] == if k in todo then pending[k]
                             else AfterVerdict(pending[k], Judge(pending[k], RowFor(rows, pending[k].device), now))
      decreases todo
    {
      var key :| key in todo;
      var p := pending[key];
      match Judge(p, RowFor(rows, p.device), now) {
        case Keep =>
        case Drop => next := next - {key};
        case Fail(error) => next := next[key := p.(phase := Failed, error := Some(error))];
      }
      todo := todo - {key};
    }
  }

  /** The store's own fields, beside the run they belong to. Queue entries are the ids their callbacks close over. */
  class Store {
    var pending: map<string, Pending>
    var cloudRecoveries: map<string, int>
    var inFlight: int
    var waiting: seq<nat>
    ghost var run: State

    ghost predicate Valid()
      reads this
    {
      run.pending == pending && run.cloudRecoveries == cloudRecoveries && run.inFlight == inFlight
        && run.waiting == waiting
    }

    constructor ()
      ensures Valid() && run == INITIAL
    {
      pending, cloudRecoveries, inFlight, waiting := map[], map[], 0, [];
      run := INITIAL;
    }

    /** Hands the slot on; the id returned is the queue entry whose turn comes next. */
    method ReleaseSlot() returns (next: Option<nat>)
      modifies `inFlight, `waiting
      ensures inFlight == (if old(waiting) == [] then old(inFlight) - 1 else old(inFlight))
      ensures if old(waiting) == [] then next == None && waiting == []
              else next == Some(old(waiting)[0]) && waiting == old(waiting)[1..]
    {
      inFlight := inFlight - 1;
      next := None;
      if |waiting| > 0 {
        next := Some(waiting[0]);
        waiting := waiting[1..];
        inFlight := inFlight + 1;
      }
    }

    /** `id` is the fresh command id. The result says whether the command went out in this turn. */
    method Send(id: nat, device: string, socket: Option<Socket>, desired: SwitchState, observedBefore: Observed,
          now: int)
      returns (sent: bool)
      requires Valid() && id == |run.issued|
      modifies this
      ensures Valid() && run == Step(old(run), Event.Send(device, socket, desired, observedBefore, now))
      ensures sent <==> run.wire == old(run.wire) + [id]
    {
      var key := TargetKey(device, socket);
      pending := pending[key := Pending(id, device, socket, desired, observedBefore, Sending, now, None, None)];
      if inFlight < MAX_COMMANDS_IN_FLIGHT {
        inFlight := inFlight + 1;
        pending := pending[key := pending[key].(issuedAt := now)];
        sent := true;
      } else {
        waiting := waiting + [id];
        sent := false;
      }
      run := Step(run, Event.Send(device, socket, desired, observedBefore, now));
    }

    /** A granted command's turn: `key` and `id` are what its callback closed over. */
    method Resume(id: nat, key: string, now: int) returns (sent: bool)
      requires Valid() && Enabled(run, Event.Resume(id, now)) && key == run.issued[id].key
      modifies this
      ensures Valid() && run == Step(old(run), Event.Resume(id, now))
      ensures sent <==> Current(old(run), id)
    {
      sent := key in pending && pending[key].id == id;
      if sent {
        pending := pending[key := pending[key].(issuedAt := now)];
      } else {
        var _ := ReleaseSlot();
      }
      run := Step(run, Event.Resume(id, now));
    }

    method Acked(id: nat, key: string, device: string, viaCloud: bool, now: int)
      requires Valid() && Enabled(run, Ack(id, viaCloud, now)) && key == run.issued[id].key
        && device == run.issued[id].device
      modifies this
      ensures Valid() && run == Step(old(run), Ack(id, viaCloud, now))
    {
      if viaCloud {
        cloudRecoveries := cloudRecoveries[device := now];
      }
      if key in pending && pending[key].id == id {
        pending := pending[key := pending[key].(phase := Confirming, ackedAt := Some(now))];
      }
      var _ := ReleaseSlot();
      run := Step(run, Ack(id, viaCloud, now));
    }

    method Rejected(id: nat, key: string, reason: string)
      requires Valid() && Enabled(run, Reject(id, reason)) && key == run.issued[id].key
      modifies this
      ensures Valid() && run == Step(old(run), Reject(id, reason))
    {
      if key in pending && pending[key].id == id {
        pending := pending[key := pending[key].(phase := Failed, error := Some(Refused(reason)))];
      }
      var _ := ReleaseSlot();
      run := Step(run, Reject(id, reason));
    }

    method Reconcile(rows: seq<Row>, now: int)
      requires Valid()
      modifies this
      ensures Valid() && run == Step(old(run), Event.Reconcile(rows, now))
    {
      pending := ReconcileAll(pending, rows, now);
      run := Step(run, Event.Reconcile(rows, now));
    }

    method Dismiss(key: string)
      requires Valid()
      modifies this
      ensures Valid() && run == Step(old(run), Event.Dismiss(key))
    {
      pending := pending - {key};
      run := Step(run, Event.Dismiss(key));
    }
  }
}
