# A verified model of iBEMS's client logic

iBEMS meters a building's electricity and switches its lights, outlets and air-conditioning from a browser.
This project models the parts of its dashboard that decide things: what a weekly stack of schedules does,
which held readings an energy figure counted and how often, in what order switching commands go out and what
the feed may conclude about them, what a report cache serves, how samples become a gap-free minute series,
what a meter's register is credited with, how rooms nest, when the live connection polls, which recorded day
a projected date borrows, how alarms become episodes, and what the CSV export holds.

Each module models one source file. Timestamps are integer milliseconds, kWh and W are reals, and one
JavaScript turn (up to the next `await`) is one atomic step. Time, the network, the database and the locale's
collation come in as inputs. The modules are:

- `ScheduleStack`: the walk round the week, against a meaning that does not mention the walk.
- `BranchEnergy`: merging held readings, against the energy of every millisecond taken once.
- `CommandStore`: the command protocol as a step relation with one invariant over every run.
- `ReportLoader`: the limiter and the cache, as classes that refine a semaphore and a state machine.
- `Timeseries`: ordering, frozen runs, placement on the grid, bridging, gap windows.
- `BoundedEnergy`: banking a register and bounding a day.
- `SpaceTree`: building, walking and flattening a tree over any parent map, cycles included.
- `BridgeClient`: socket, reconnect timer and polling as a state machine over every run.
- `BaselineProjection`: the round robin over recorded days, the sums and the quantiles.
- `CapabilityEpisodes`: one interleaved fold, against the maximal runs of each device.
- `Csv` and `ReadingsExport`: the CSV writer against a parser of RFC 4180 section 2, paging by key, the
  exact count, the worker pool, the file in parts.
- `Wrappers`, `Sorting`, `OrderedMap`, `Semaphore`: what several of them share. `Sort` is a stable sort,
  `OrderedMap` is JavaScript's `Map`.

Code that changes things step by step is a method or a class here, proved against a function or a predicate
that states what it must come to; the properties are then proved of that function, that predicate, or of
every run of the state machine. What a definition shared by both must mean is stated once more without it: in
figures, event by event, or in reading order. Where the code does not do what its comments say, the code was followed, and
the project states exactly when the comment holds:

- `src/lib/scheduleStack.ts:242` says off wins at an equal minute. The painted week is the off-wins one exactly when
  no minute carries both edges (`ScheduleStack.OffWinsExactlyWithoutSharedMinutes`); one rule that switches off and
  on at 08:00 paints its whole week, where off-wins would paint none of it (`ScheduleStack.SharedMinuteExample`).
- `src/stores/commandStore.ts:24-25` ties an error to the failed phase. Every event keeps that but one: the ack of a
  command whose entry has failed (`CommandStore.ErrorOutlivesFailureExactly`); a run comes to it
  (`CommandStore.ConfirmingWithAnError`).
- `src/stores/commandStore.ts:173-177` says re-stamping keeps the queue from manufacturing a false failure. A frame
  fails a queued command as never having reached the bridge exactly when it shows the target, not done, half a minute
  after the queueing (`CommandStore.QueuedCommandsFailExactly`); the command is then sent in every run that leaves the
  entry in place (`CommandStore.FailedInTheQueueIsStillSent`), and a run in which the commands ahead of it
  are refused in time, four at a time, does both (`CommandStore.FailedInTheQueueThenSent`).
- `src/lib/reportLoader.ts:270-273`: `invalidate` forgets a load but does not stop it. It keeps older answers out of
  every run to come exactly when no load of the key is running at that moment
  (`ReportLoader.InvalidationHoldsExactly`), which in a cache that has forgotten nothing can be read off its map of
  requests (`ReportLoader.RunningIsInFlight`). `clear` does so exactly when no load at all is running
  (`ReportLoader.ClearingHoldsExactly`). After either no older request is ever joined
  (`ReportLoader.ForgettingStartsAnew`, `ReportLoader.ClearingStartsAnew`).
- `src/lib/bridgeClient.ts:170-171` says nothing fires after disconnect. That holds of every later event; only a
  poll's own `onData` that disconnects is still followed by an `onStatus` (`BridgeClient.LastWordExactly`).
- `src/lib/bridgeClient.ts:167-168` says the other path stops itself. Opening stops the polling exactly when no
  request is out and no forgotten timer is armed (`BridgeClient.OpeningStopsPollingExactly`). Forgotten timers add up:
  a socket that opens and closes again while a request is out leaves one more, and no number bounds them, in runs
  whose timers all go off on time and whose requests all end within their ten seconds
  (`BridgeClient.PollingChainsHaveNoBound`).
- `src/lib/spaceTree.ts` offers two path texts. Where every row has an id and a name they agree; for which rows they
  agree in any list is stated exactly (`SpaceTree.PickerAgreesWithLabel`).
- `src/stores/commandStore.ts:30` joins a device id and a socket with a colon. Distinct targets share a key exactly when
  one device's id is spelled like another's socket key (`CommandStore.TargetKeysMeetExactly`).
- `src/lib/readingsExport.ts:19-20` wants no file with a hole in it. With the table's own count there is none; when
  the service gives no number, exactly when the paging was whole (`ReadingsExport.NoHoleExactly`): with the tables'
  primary keys, when no page came back empty while rows remained (`ReadingsExport.NoHoleOfUniqueKeysExactly`,
  `ReadingsExport.WithoutACountAHoleGetsThrough`).

To verify everything: `dafny verify dfyconfig.toml`.

## Model

| member | source | states |
|---|---|---|
| `ScheduleStack.CollectEdges` | `src/lib/scheduleStack.ts:245-259` | the list holds exactly the edges of the armed rules on their set days, each within the week |
| `ScheduleStack.WeekTimelineOf` | `src/lib/scheduleStack.ts:245-294` | a minute lies in a returned span if and only if the latest edge at or before it round the week (the on edge last at a shared minute) is on; with on edges only, if and only if it is at or after the first; spans lie in one day, sorted and never touching; both flags exact |
| `ScheduleStack.Walk` | `src/lib/scheduleStack.ts:274-291` | the walk over sorted edges covers exactly the minutes that are on by the meaning above |
| `ScheduleStack.StateBetween` | `src/lib/scheduleStack.ts:274-291` | between two edges the state the walk carries is the state of every minute there, by the cyclic meaning |
| `ScheduleStack.LastDecides` | `src/lib/scheduleStack.ts:264-288` | with ties sorted off before on, the last edge by a minute decides it whatever else shares its minute |
| `ScheduleStack.SplitByDay` | `src/lib/scheduleStack.ts:297-308` | the pieces cover exactly the range and none crosses midnight |
| `ScheduleStack.MergeAdjacent` | `src/lib/scheduleStack.ts:311-323` | the same minutes are covered, by spans that are sorted and apart, for spans in any order |
| `ScheduleStack.NormalIsUnique` | `src/lib/scheduleStack.ts:311-323` | a set of minutes has only one such list of spans |
| `ScheduleStack.TimelineDependsOnlyOnEdges` | `src/lib/scheduleStack.ts:245-294` | two timelines painted from the same set of edges are equal |
| `ScheduleStack.StackOrderIsIrrelevant` | `src/lib/scheduleStack.ts:245-294` | the same rules in any order, or repeated, paint the same week |
| `ScheduleStack.OffWinsExactlyWithoutSharedMinutes` | `src/lib/scheduleStack.ts:242-294` | the spans painted are those of the reading in which off wins its minute if and only if no minute carries both edges |
| `ScheduleStack.SharedMinuteExample` | `src/lib/scheduleStack.ts:242-294` | off and on together at 08:00 on one day: every minute of the painted week is covered, and under off-wins none would be |
| `BranchEnergy.SiteDayStart` | `src/lib/branchEnergy.ts:110-113` | the result is a local midnight, at or before now and less than a day before, for any offset and for instants before the epoch |
| `BranchEnergy.FrozenToday` | `src/lib/branchEnergy.ts:115-132` | the holds are those of exactly the frozen runs of the ordered online points, still going on only for the run that ends at the latest `ts`, and each is charged its own span of the day |
| `BranchEnergy.HoldsAreOfTheRuns` | `src/lib/branchEnergy.ts:124-131` | in figures: one hold for each run that reaches past its own start and the day's, in order, from the run's start, with its power and voltage; it is going on, and reaches to now, exactly when the run ends at the latest `ts` at most five minutes before now |
| `BranchEnergy.FrozenFromReading` | `src/lib/branchEnergy.ts:139-148` | a hold exists exactly for a flagged reading whose freeze and whose day both began before now; it runs from that freeze to now, holds the reading's own power, is charged its span of the day, and names the reading's voltage unless it is shared |
| `BranchEnergy.MergeHolds` | `src/lib/branchEnergy.ts:159-179` | merged holds are sorted and more than ten minutes apart, contain every input, are each unbroken, carry the figure of their latest input; and the charge of each is the sum, over each millisecond of the day in its own span, of the watts of the first input by start that covers it, as is the charge of all together |
| `BranchEnergy.ChargeNext` | `src/lib/branchEnergy.ts:167-168` | adding the next hold by start adds exactly the part of it that no earlier hold and no earlier day covers |
| `BranchEnergy.Grow` | `src/lib/branchEnergy.ts:169-176` | extending the last hold keeps the whole of the merge's meaning |
| `BranchEnergy.MeterHolds` | `src/lib/branchEnergy.ts:190-197` | one meter's holds are the merge, as above, of those its history shows and the one the bridge flags, nothing added or left out |
| `CommandStore.EveryRunIsSafe` | `src/stores/commandStore.ts:149-312` | in every run of sends, grants, acks, failures, frames and dismissals: each command is in one place, at most four hold a slot, nobody waits below four, each entry is the latest command issued for its target, and commands for one target reach the wire in issue order |
| `CommandStore.StepKeepsSafe` | `src/stores/commandStore.ts:149-312` | every event keeps that invariant |
| `CommandStore.OnlyTheWantedIsSent` | `src/stores/commandStore.ts:166-181` | what an event puts on the wire is at most one command, never sent before, the latest for its target at that moment, with its issue time that moment |
| `CommandStore.AnswersTouchOnlyTheirOwn` | `src/stores/commandStore.ts:194-211` | a late ack, failure or grant changes no entry but its own command's |
| `CommandStore.RefusalsFail` | `src/stores/commandStore.ts:202-204` | in every safe state a refusal makes its command's entry failed with the reason given, keeps the entry's other fields, and changes no other entry; without such an entry nothing changes |
| `CommandStore.AcksConfirm` | `src/stores/commandStore.ts:194-201` | an ack makes its command's entry confirming from that moment and changes nothing else; an answer by the cloud is noted for the device, superseded command or not |
| `CommandStore.TurnsStamp` | `src/stores/commandStore.ts:166-181` | a command's turn stamps its entry and puts it on the wire, or without an entry does neither |
| `CommandStore.SendsAreEntered` | `src/stores/commandStore.ts:153-165` | a new command replaces its target's entry with what was asked, of what, when and what the target showed then |
| `CommandStore.FramesOnlyFailOrDrop` | `src/stores/commandStore.ts:228-312` | a frame leaves each entry as it was, fails it or drops it, and touches nothing else; a dismissal drops its own entry |
| `CommandStore.EntriesTellTheRun` | `src/stores/commandStore.ts:153-312` | in every run an entry says only what the run said of its own command: what was asked and observed, when it was queued or sent, an ack and its instant (confirming only after one), a refusal and its reason; the devices noted are those the cloud answered for, at its last answer |
| `CommandStore.FramesDropExactlyTheDone` | `src/stores/commandStore.ts:228-264` | in every reachable state, a frame takes an entry away if and only if a current row shows done the command last issued for its target, or, for a failed one, shows the target fifteen seconds after its stamp |
| `CommandStore.FramesFailExactly` | `src/stores/commandStore.ts:250-302` | a frame fails an entry if and only if the device's last row in it shows the target, not in the state asked for or not live by its own budget, six seconds after the ack, or without an ack more than thirty after the stamp |
| `CommandStore.FailuresAreEarned` | `src/stores/commandStore.ts:266-302` | in every reachable state, a frame fails an entry only when it shows the target and not done, and each of the three texts only when what it says is so: never reached, of a command not answered; not reported, of an answered one with a row made since; not heard since, of an answered one with an older or undated row |
| `CommandStore.ErrorOutlivesFailureExactly` | `src/stores/commandStore.ts:153-312` | where errors stand only on failed entries, an event leaves it so if and only if it is not the ack of a command whose entry has failed |
| `CommandStore.ConfirmingWithAnError` | `src/stores/commandStore.ts:24-25` | a run that keeps time, each command on the wire refused within its five seconds, in which an entry is confirming with the error that the bridge was never reached |
| `CommandStore.TargetKeysMeetExactly` | `src/stores/commandStore.ts:30` | two targets have one key if and only if they are the same, or one has no socket and its device id is the other's key |
| `CommandStore.TargetKeysCanMeet` | `src/stores/commandStore.ts:30` | a device called `a:1` and the first socket of `a` share a key |
| `CommandStore.TargetKeysDistinct` | `src/stores/commandStore.ts:30` | so, where device ids hold no colon, distinct targets have distinct keys |
| `CommandStore.QueueIsFair` | `src/stores/commandStore.ts:52-60` | the queue is a first-come first-served semaphore: never past the cap, no one waits while a slot is free, grants in order of asking |
| `CommandStore.StepRefinesSemaphore` | `src/stores/commandStore.ts:52-225` | every event is one semaphore step: a send acquires, and success, failure and a superseded early return each release exactly one slot |
| `CommandStore.RankFalls` | `src/stores/commandStore.ts:166-305` | no event but a new command for the target raises an entry's measure, and a frame late enough for what its phase waits for lowers it |
| `CommandStore.RipeFramesAreFew` | `src/stores/commandStore.ts:228-305` | over any run the late enough frames an entry meets are at most the fall of its measure |
| `CommandStore.PendingDoesNotLiveForEver` | `src/stores/commandStore.ts:228-305` | with no new command for its target an entry is gone after three such frames, whatever happens between |
| `CommandStore.TwoRipeFramesMayNotDo` | `src/stores/commandStore.ts:228-305` | a run that keeps time in which two such frames leave an entry standing |
| `CommandStore.QueuedCommandsFailExactly` | `src/stores/commandStore.ts:250-272` | a frame fails a command still in the queue if and only if it shows the target, not done, and comes more than thirty seconds after the queueing |
| `CommandStore.FailedInTheQueueIsStillSent` | `src/stores/commandStore.ts:166-181` | in every run after that frame which leaves the entry in place, the command's turn puts it on the wire |
| `CommandStore.FailedInTheQueueThenSent` | `src/stores/commandStore.ts:173-272` | a run from the empty store that keeps time: the last of a queue is failed as never having reached the bridge, and then is the last on the wire |
| `CommandStore.TimedRunsAreRuns` | `src/lib/bridgeClient.ts:113-114` | a run in which every command is answered within its five seconds and a granted one resumes before anything else is a run, and keeps the invariant of every run |
| `CommandStore.Store.ReleaseSlot` | `src/stores/commandStore.ts:57-60` | the first in line leaves the queue and the count stands, or the count falls by one |
| `CommandStore.Store.Send` | `src/stores/commandStore.ts:153-225` | the store moves as the send step, and sends in the same turn exactly when the wire grows |
| `CommandStore.Store.Resume` | `src/stores/commandStore.ts:166-181` | a granted command is sent if and only if it is still the one wanted |
| `CommandStore.Store.Acked` | `src/stores/commandStore.ts:195-211` | the store moves as the ack step |
| `CommandStore.Store.Rejected` | `src/stores/commandStore.ts:202-210` | the store moves as the failure step |
| `CommandStore.Store.Reconcile` | `src/stores/commandStore.ts:228-305` | the loop over the entries comes to judging each against its row of the frame |
| `CommandStore.Store.Dismiss` | `src/stores/commandStore.ts:307-312` | the store moves as the dismissal step |
| `Semaphore.StartIsFair` | `src/lib/reportLoader.ts:173-175` | a semaphore no one has asked yet is fair, whatever its size |
| `Semaphore.AcquireKeepsFair` | `src/lib/reportLoader.ts:173-177` | asking keeps the semaphore's fairness |
| `Semaphore.ReleaseKeepsFair` | `src/lib/reportLoader.ts:181-185` | giving back keeps the semaphore's fairness |
| `ReportLoader.Limiter.constructor` | `src/lib/reportLoader.ts:173-175` | a limiter starts as the empty semaphore of its size |
| `ReportLoader.Limiter.Enter` | `src/lib/reportLoader.ts:176-178` | entering is acquiring; the work starts at once exactly when it holds a place |
| `ReportLoader.Limiter.Leave` | `src/lib/reportLoader.ts:179-186` | leaving, however the work ended, is releasing, and hands the place to the first in line |
| `ReportLoader.HandOverCount` | `src/lib/reportLoader.ts:171-186` | a place handed over leaves the number of holders as it was |
| `ReportLoader.EveryRunIsSound` | `src/lib/reportLoader.ts:216-278` | in every run, `invalidate` and `clear` included: at most `max` values, none under a key whose load is out, each from a completed load of its own key |
| `ReportLoader.RunsFromEmptyAreOrderly` | `src/lib/reportLoader.ts:216-278` | without them: one load per key at most, and the stored keys stand in the order of their last hit or store |
| `ReportLoader.WhatGetServes` | `src/lib/reportLoader.ts:232-265` | a served value came from a load of that key and is younger than the limit; a joined request is a running load of that key; a new one starts only when none runs |
| `ReportLoader.YoungIsServed` | `src/lib/reportLoader.ts:220-238` | a stored value younger than the limit is what `get` answers; it moves last, nothing is loaded, nothing else changes, and `peek` changes nothing |
| `ReportLoader.TheOldIsLoadedAnew` | `src/lib/reportLoader.ts:220-266` | without one `get` joins the request on its way, begins one, or passes on what `load` threw; it and `peek` take away what is stored under the key and nothing else |
| `ReportLoader.EndedLoadsAreStored` | `src/lib/reportLoader.ts:247-265` | a load that ends is joined no more; its value stands at its key's place, or last, and only the first entries over `max` go |
| `ReportLoader.ForgettingTakesNoMore` | `src/lib/reportLoader.ts:270-277` | `invalidate` forgets the value and the request of its key and no other's; `clear` forgets all of both and no load |
| `ReportLoader.ServedWhileYoung` | `src/lib/reportLoader.ts:216-278` | over any run that leaves room and does not forget the key, a value is served for as long as it is young, whatever else happens |
| `ReportLoader.FailureIsNotRemembered` | `src/lib/reportLoader.ts:258-262` | after a failed load nothing is stored under its key and nothing is in flight for it |
| `ReportLoader.EvictsLeastRecentlyUsed` | `src/lib/reportLoader.ts:247-257` | storing evicts nothing below the limit, and otherwise only the value whose last use lies before that of every one kept |
| `ReportLoader.InvalidationHoldsExactly` | `src/lib/reportLoader.ts:245-273` | in every run after `invalidate` only values of later loads are stored under the key, if and only if no load of the key was running at that moment or the cache can hold nothing |
| `ReportLoader.ForgettingStartsAnew` | `src/lib/reportLoader.ts:245-273` | in every run after `invalidate` no `get` of the key joins an older request, whatever was running; and if none of its loads was, no `get` of it is answered with anything older |
| `ReportLoader.ClearingHoldsExactly` | `src/lib/reportLoader.ts:274-277` | in every run after `clear` only values of later loads are stored, under any key, if and only if no load at all was running at that moment or the cache can hold nothing |
| `ReportLoader.ClearingStartsAnew` | `src/lib/reportLoader.ts:245-277` | in every run after `clear` no `get` of any key joins an older request; and if no load was running, none is answered with anything older |
| `ReportLoader.RunSince` | `src/lib/reportLoader.ts:216-278` | once nothing older is stored under a key or on its way, no event whatever brings an older value back |
| `ReportLoader.RunningIsInFlight` | `src/lib/reportLoader.ts:216-278` | in an orderly cache a load of a key is running if and only if the map of requests has the key |
| `ReportLoader.InvalidatedLoadStillStores` | `src/lib/reportLoader.ts:270-273` | a load forgotten by `invalidate` still ends and stores its value, for any limit of one or more |
| `ReportLoader.ReportCache.FreshEntry` | `src/lib/reportLoader.ts:221-229` | an expired entry is dropped by the looking |
| `ReportLoader.ReportCache.Fetch` | `src/lib/reportLoader.ts:232-265` | the answer and the two maps are those of the `get` step |
| `ReportLoader.ReportCache.Settled` | `src/lib/reportLoader.ts:247-262` | the eviction loop comes to keeping the newest `max` |
| `ReportLoader.ReportCache.Look` | `src/lib/reportLoader.ts:267-269` | the value if fresh; expiry is the only change |
| `ReportLoader.ReportCache.Forget` | `src/lib/reportLoader.ts:270-273` | the store moves as the `invalidate` step |
| `ReportLoader.ReportCache.ForgetAll` | `src/lib/reportLoader.ts:274-277` | the store moves as the `clear` step |
| `Timeseries.Ordered` | `src/lib/timeseries.ts:135-149` | strictly by instant, holding for each instant of the input its last point and nothing else |
| `Timeseries.OrderedHoldsThePoints` | `src/lib/timeseries.ts:135-149` | each entry is a point at its tick, or at its own timestamp without one, and every point's instant is there |
| `Timeseries.DetectFrozenRuns` | `src/lib/timeseries.ts:180-208` | the runs are exactly the maximal blocks of one repeated key among the online points that are long enough by count and time, or hold a flagged sample and last half an hour; in order and disjoint, with positive power |
| `Timeseries.RunsAreHeldStill` | `src/lib/timeseries.ts:180-208` | in figures: the runs are exactly the maximal stretches of one power above nothing, one current and, unless shared, one voltage, of at least 180 readings over 175 minutes, or half an hour with a flagged one; each tells its ends, its count and what it held |
| `Timeseries.AlignToGrid` | `src/lib/timeseries.ts:236-257` | one slot per step; each slot is the classification of the last sample placed in it and missing otherwise |
| `Timeseries.SlotsTellTheirSamples` | `src/lib/timeseries.ts:219-257` | each slot is at its own time and tells its sample's figure, timestamp and coverage; it is offline, missing, an outlier, frozen or measured exactly as the sample's flag, field, bounds and run make it, and carries a value exactly when frozen or measured |
| `Timeseries.FillGrid` | `src/lib/timeseries.ts:242-256` | the loop's writes come to the closed form of placement, clamped to the window's end |
| `Timeseries.PushFollowsLaw` | `src/lib/timeseries.ts:244-247` | the three-way push of the loop is `min(own + 2, max(own, previous + 1))` on ordered samples |
| `Timeseries.PlaceDisplaced` | `src/lib/timeseries.ts:244-247` | a sample stands nought to two slots after its own |
| `Timeseries.PlaceMonotone` | `src/lib/timeseries.ts:244-247` | placement never reorders samples |
| `Timeseries.NoSharedSlotIffRoom` | `src/lib/timeseries.ts:244-247` | no two samples share a slot if and only if every sample and the crowd before it fit within two slots of its own |
| `Timeseries.ImputeShortGaps` | `src/lib/timeseries.ts:260-287` | exactly the maximal gap runs of at most the allowed slots, measured on the left and measured or live on the right, are bridged on the line between the two; all else is unchanged |
| `Timeseries.BridgedExactly` | `src/lib/timeseries.ts:260-287` | a slot is bridged if and only if it lies in at most that many slots without a reading between a measured one and a measured or live one; it then has the value on the line between those, is marked interpolated with what it was, and keeps all else |
| `Timeseries.OnLineBetween` | `src/lib/timeseries.ts:278` | the bridged value divides the difference as time divides the gap and never leaves the range of its two neighbours |
| `Timeseries.GapsLeft` | `src/lib/timeseries.ts:260-287` | the gap runs left are exactly those that were not bridged, whole |
| `Timeseries.ImputeIsIdempotent` | `src/lib/timeseries.ts:260-287` | bridging a second time changes nothing |
| `Timeseries.GapWindows` | `src/lib/timeseries.ts:290-308` | the windows are exactly the maximal gap runs of the least length or more, in order, with their span and worst kind |
| `Timeseries.WindowsAreNamed` | `src/lib/timeseries.ts:300-304` | a window runs from its first slot to the end of its last, counts them, and is offline if any slot is, else outlier if any is, else missing |
| `Timeseries.MinuteGapsAreBridgedOrNamed` | `src/lib/timeseries.ts:260-308` | on the minute grid a gap run between two measured slots is either bridged throughout or is exactly one window |
| `BoundedEnergy.RegisterGain` | `src/lib/boundedEnergy.ts:92-96` | the sum of the rises of the readings in order |
| `BoundedEnergy.HourRegisterOf` | `src/lib/boundedEnergy.ts:99-102` | first, last and gain of an hour's readings, none for no readings |
| `BoundedEnergy.RolledHourRegister` | `src/lib/boundedEnergy.ts:109-117` | a row has a register exactly when it kept a last or a highest reading; a missing last or first is the highest, a missing gain nothing |
| `BoundedEnergy.RolledRowsReadBack` | `src/lib/boundedEnergy.ts:100-117` | a row that kept what its hour's readings came to is read back as those readings are |
| `BoundedEnergy.BankDay` | `src/lib/boundedEnergy.ts:125-135` | the map holds, for every hour start, the bank of all registers up to the last one of that start |
| `BoundedEnergy.BankingIgnoresTheCut` | `src/lib/boundedEnergy.ts:92-135` | however readings are cut into hours, the bank after the last is the gain of a register that starts at nothing and takes them all |
| `BoundedEnergy.BankMapIsTheFlatGain` | `src/lib/boundedEnergy.ts:92-135` | the map of a day's banks holds, for each hour with a reading and for no other, the flat gain of all readings to that hour's end |
| `BoundedEnergy.CutsBankAlike` | `src/lib/boundedEnergy.ts:92-135` | two cuts of the same readings bank alike |
| `BoundedEnergy.BankNeverFalls` | `src/lib/boundedEnergy.ts:125-135` | a bank is never negative and never falls |
| `BoundedEnergy.UnbrokenRegisterBanksToHighest` | `src/lib/boundedEnergy.ts:125-135` | a register that never fell banks to its last reading, which is its highest |
| `BoundedEnergy.DayPeak` | `src/lib/boundedEnergy.ts:139-140` | one of the hours' maxima and above all of them, none when none has one |
| `BoundedEnergy.BoundDay` | `src/lib/boundedEnergy.ts:138-175` | the loop comes to the day stated hour by hour on the sorted counted hours |
| `BoundedEnergy.TheDayInFigures` | `src/lib/boundedEnergy.ts:138-179` | in figures, over the counted hours in order: a rise is clipped exactly when over 1.1 times the day's peak for its span and an hour more, plus 5 Wh; a clipped hour is credited the smaller of that and its own average power over the span, any other its rise, a fall nothing; the energy is their sum, the counter the highest value, and what was removed the difference |
| `BoundedEnergy.CreditedAndLostAreTheRises` | `src/lib/boundedEnergy.ts:150-167` | for any register, energy and what the clipped hours lost add up to the rises; each clipped hour lost something |
| `BoundedEnergy.ConservationOverABankedDay` | `src/lib/boundedEnergy.ts:150-175` | for a banked register, energy and the clipped losses add up to the counter, the losses are `removedKwh`, and energy is the counter exactly when no hour was clipped |
| `BoundedEnergy.BanksAreBanked` | `src/lib/boundedEnergy.ts:119-175` | hours that carry the banks of their day's readings form a banked register |
| `BoundedEnergy.ReadingsAreCreditedOrClipped` | `src/lib/boundedEnergy.ts:92-175` | from the raw readings, resets and all: energy and clipped losses add up to the gain of every reading of the day, which is the counter |
| `BoundedEnergy.EnergyWithinCaps` | `src/lib/boundedEnergy.ts:155-163` | no hour is credited more than its cap, so the day is within the sum of them |
| `BoundedEnergy.CapsTelescope` | `src/lib/boundedEnergy.ts:153-157` | the caps of the hours add up to one expression in the time elapsed and the number of hours |
| `BoundedEnergy.CeilingOverAnyDay` | `src/lib/boundedEnergy.ts:138-175` | for any register whatever and a positive day peak, energy is at most 1.1 x peak / 1000 x (hours elapsed + hours counted) + 0.005 x hours counted |
| `BoundedEnergy.BankingKeepsOldDays` | `src/lib/boundedEnergy.ts:104-117` | for any day of rows that kept only a maximum, one to an hour, the day bounded over the map of its banks has the energy and the clipped hours of the day bounded over the rows, and is that very day where the counter never fell |
| `SpaceTree.IndexById` | `src/lib/spaceTree.ts:61-62` | the map holds, in order of first appearance, the last row of each id |
| `SpaceTree.Group` | `src/lib/spaceTree.ts:64-69` | roots are exactly the rows without a parent other than themselves, and each parent has exactly its rows, in order |
| `SpaceTree.BuildTree` | `src/lib/spaceTree.ts:60-88` | the loops and the pruning come to the forest defined by recursion on depth and the ids above |
| `SpaceTree.Prune` | `src/lib/spaceTree.ts:75-84` | the pruning of a list of siblings comes to that recursion, for cyclic maps too |
| `SpaceTree.PathShape` | `src/lib/spaceTree.ts:60-88` | a chain to a root starts without a parent, goes from parent to child, and is the chain of each node on it |
| `SpaceTree.PathHasNoRepeat` | `src/lib/spaceTree.ts:71-81` | no id comes twice on a chain that ends, so the guard against repeats never cuts one |
| `SpaceTree.TreeHoldsTheGroundedOnce` | `src/lib/spaceTree.ts:60-144` | for any rows, cycles included, a node is listed once if its chain ends within 32 levels and not at all otherwise |
| `SpaceTree.TreeHoldsNothingElse` | `src/lib/spaceTree.ts:133-144` | every option is a row's, with the depth and the path of its chain |
| `SpaceTree.TreeIsInOrder` | `src/lib/spaceTree.ts:49-88` | at every level siblings stand by rank and then by name |
| `SpaceTree.FlattenForPicker` | `src/lib/spaceTree.ts:132-144` | every row whose chain ends is offered once, with the depth and path of its chain, and nothing else; each under the nearest option before it that is a level up, which is its parent, and siblings and roots by rank and then name |
| `SpaceTree.OptionsRead` | `src/lib/spaceTree.ts:125-144` | that reading order holds of what any list of rows is flattened to, cycles and unknown parents included |
| `SpaceTree.BeneathFollowsWithoutAGap` | `src/lib/spaceTree.ts:125-144` | the options beneath a row follow it with none between that is not beneath it too |
| `SpaceTree.NodePath` | `src/lib/spaceTree.ts:95-107` | empty for an unknown id; otherwise the way up, reversed, stopped only by a root, a repeat or the depth bound |
| `SpaceTree.Climb` | `src/lib/spaceTree.ts:100-105` | the loop climbs parent by parent without repeating and stops for one of those reasons |
| `SpaceTree.NodePathIsTheSeenChain` | `src/lib/spaceTree.ts:95-107` | for a node whose chain ends within 32 levels the path is the part of the chain below its last empty id |
| `SpaceTree.NodePathIsTheChain` | `src/lib/spaceTree.ts:95-107` | so it is the whole chain if and only if no id on the chain is empty |
| `SpaceTree.PathLabel` | `src/lib/spaceTree.ts:110-114` | the names along the node's path, joined |
| `SpaceTree.PathsAgreeExactly` | `src/lib/spaceTree.ts:110-138` | the picker's path and the joined names agree if and only if the chain is one node or its root has a name |
| `SpaceTree.PickerAgreesWithLabel` | `src/lib/spaceTree.ts:95-144` | every option is its row's chain, and its path is the row's label if and only if the rows above the last empty id have no names and what is left is one row at most or starts with a name |
| `SpaceTree.SubtreeIds` | `src/lib/spaceTree.ts:170-183` | exactly the ids reachable downward from the root, for every parent map and an unknown root |
| `SpaceTree.FullIsClosed` | `src/lib/spaceTree.ts:173-181` | as many passes as rows always suffice: a set that grew in each holds every row |
| `BridgeClient.BackoffDoublesToTheCap` | `src/lib/bridgeClient.ts:131-135` | 15, 30, 60 and then 120 seconds for ever, each the double of the last up to the cap |
| `BridgeClient.EveryRunIsSafe` | `src/lib/bridgeClient.ts:173-275` | in every run until disconnect: one unclosed socket or one armed reconnect timer, never both; at most one request out; from a close to the next open a poll is out or armed |
| `BridgeClient.StepSafe` | `src/lib/bridgeClient.ts:173-275` | every event keeps that invariant, callbacks that disconnect included |
| `BridgeClient.EventsSay` | `src/lib/bridgeClient.ts:194-274` | what the handlers hear of each event, on a connection closed or not, and that it disconnects exactly where its handler does |
| `BridgeClient.RunsSay` | `src/lib/bridgeClient.ts:173-275` | all a run says is that, event by event in order, up to the disconnect |
| `BridgeClient.FramesChangeNothingElse` | `src/lib/bridgeClient.ts:244-252` | a frame that parses is handed on and changes nothing else; a malformed one changes nothing |
| `BridgeClient.DataAreTheDeliveries` | `src/lib/bridgeClient.ts:194-252` | over every run `onData` is called as often as a frame parsed or a request brought rows before the disconnect |
| `BridgeClient.FailuresAreInARow` | `src/lib/bridgeClient.ts:181-207` | over every run the count of failures is that of the failures in a row, begun anew by rows, an opening or a disconnect |
| `BridgeClient.TimersAsk` | `src/lib/bridgeClient.ts:187-194` | a poll timer begins one request, or is armed again by the count of failures while one is out, and changes nothing else |
| `BridgeClient.AnswersArm` | `src/lib/bridgeClient.ts:194-207` | an answer ends the request and arms one timer by the new count of failures, and changes nothing else |
| `BridgeClient.ClosesPoll` | `src/lib/bridgeClient.ts:209-260` | a close begins polling only if no poll timer is remembered, arms the one reconnect, and changes nothing else |
| `BridgeClient.ReconnectsOpen` | `src/lib/bridgeClient.ts:215-242` | a reconnect opens one socket or is armed again; an opening clears the remembered poll timer and the count |
| `BridgeClient.DisconnectClears` | `src/lib/bridgeClient.ts:268-274` | disconnecting clears the remembered timers and the socket and says so once |
| `BridgeClient.ClosedStaysQuiet` | `src/lib/bridgeClient.ts:268-274` | after disconnect no callback ever runs again, whatever fires late |
| `BridgeClient.ClosedIsQuiet` | `src/lib/bridgeClient.ts:173-275` | after disconnect nothing new is opened, armed or requested |
| `BridgeClient.LastWordExactly` | `src/lib/bridgeClient.ts:194-203` | the event that disconnects says nothing more, except that rows whose own handler disconnects are followed by a status |
| `BridgeClient.OpeningStopsPollingExactly` | `src/lib/bridgeClient.ts:181-185` | opening leaves nothing polling if and only if no request was out and the remembered timer was the only one |
| `BridgeClient.PollingChainsDouble` | `src/lib/bridgeClient.ts:187-213` | a request out over a reconnection: the next close and its answer arm a timer each |
| `BridgeClient.TimedRunsAreRuns` | `src/lib/bridgeClient.ts:54-58` | a run in which timers go off when due, the first armed first, and a request ends within ten seconds is a run, and keeps the invariant of every run |
| `BridgeClient.PollingChainsCanDouble` | `src/lib/bridgeClient.ts:187-213` | a run that keeps time so comes to that state |
| `BridgeClient.PollingChainsHaveNoBound` | `src/lib/bridgeClient.ts:181-236` | for every number there is a run that keeps time and has more poll timers armed at once before disconnect |
| `BridgeClient.LiveConnection.constructor` | `src/lib/bridgeClient.ts:266` | connecting opens a socket, or arms a reconnect when that throws |
| `BridgeClient.LiveConnection.Poll` | `src/lib/bridgeClient.ts:187-194` | the first turn of the poll loop moves as the machine's poll |
| `BridgeClient.LiveConnection.OnReply` | `src/lib/bridgeClient.ts:194-207` | rows, a throwing handler and a failed request each end as the machine's reply, the timer re-armed unless closed |
| `BridgeClient.LiveConnection.OnOpen` | `src/lib/bridgeClient.ts:238-242` | moves as the machine's open |
| `BridgeClient.LiveConnection.OnMessage` | `src/lib/bridgeClient.ts:244-252` | moves as the machine's message, a malformed frame dropped |
| `BridgeClient.LiveConnection.OnClose` | `src/lib/bridgeClient.ts:254-260` | moves as the machine's close: status, polling, reconnect |
| `BridgeClient.LiveConnection.OnPollDue` | `src/lib/bridgeClient.ts:187-194` | moves as the machine's poll timer |
| `BridgeClient.LiveConnection.OnReconnectDue` | `src/lib/bridgeClient.ts:215-236` | moves as the machine's reconnect |
| `BridgeClient.LiveConnection.Hang` | `src/lib/bridgeClient.ts:268-274` | moves as the machine's disconnect |
| `BaselineProjection.TurnOf` | `src/lib/baselineProjection.ts:92-101` | the weeks-and-rest count is the number of dates of the kind between the epoch and the date, negative before it |
| `BaselineProjection.TurnRises` | `src/lib/baselineProjection.ts:92-101` | the turn rises by one over a date of the kind and not over any other, on both sides of the epoch |
| `BaselineProjection.DonorsAreUsedEvenly` | `src/lib/baselineProjection.ts:92-114` | over any stretch with k dates of a kind, each of p donors has between floor(k/p) and ceil(k/p) turns |
| `BaselineProjection.RecordedDaysAreDrawnEvenly` | `src/lib/baselineProjection.ts:104-115` | the same of the donor days themselves in any stretch without a holiday, for distinct recorded days |
| `BaselineProjection.ClosedFrom` | `src/lib/baselineProjection.ts:87-89` | the kind chosen uses no more than any other; of those that use least it is the Sunday's, or else the first listed |
| `BaselineProjection.FindHoliday` | `src/lib/baselineProjection.ts:105` | a name is found exactly when the date is listed, and is that of its first entry |
| `BaselineProjection.DonorFor` | `src/lib/baselineProjection.ts:104-115` | the branches come to the donor defined for the date alone, so no period a date is read in changes it |
| `BaselineProjection.EveryDateIsDrawn` | `src/lib/baselineProjection.ts:104-115` | a listed date whose weekday is of another kind is of the closed kind, under its listed name, and takes that kind's recorded days round and round by the date; any other is of its weekday's kind and takes them by its turn |
| `BaselineProjection.HolidaysAreTheQuietestDays` | `src/lib/baselineProjection.ts:104-115` | a day projected as a holiday is of a kind that uses least, its donor is of its kind, and a holiday list changes only listed dates of another kind |
| `BaselineProjection.CircuitsAddUpToTheBuilding` | `src/lib/baselineProjection.ts:146-217` | the building's energy over a period is the sum of its circuits' |
| `BaselineProjection.HoursAddUpToTheDay` | `src/lib/baselineProjection.ts:144-170` | the hours of a projected day add up to the day |
| `BaselineProjection.ValueMonotone` | `src/lib/baselineProjection.ts:121-126` | the interpolated value never falls as its place moves on |
| `BaselineProjection.QuantilesAscend` | `src/lib/baselineProjection.ts:121-126` | a quantile of ascending values stays within their range and never falls as `q` rises |
| `BaselineProjection.QuantilesAreOnTheLine` | `src/lib/baselineProjection.ts:121-126` | a quantile is on the straight line between the two values its place falls between |
| `BaselineProjection.QuantileEnds` | `src/lib/baselineProjection.ts:121-126` | at 0 it is the least value and at 1 the greatest |
| `BaselineProjection.CurveDescends` | `src/lib/baselineProjection.ts:200-201` | the demand curve never rises from 0% to 100% |
| `CapabilityEpisodes.FoldEpisodes` | `src/lib/capabilityEpisodes.ts:79-111` | the loop over interleaved samples comes to the fold whose episodes are characterised below |
| `CapabilityEpisodes.DeviceByDevice` | `src/lib/capabilityEpisodes.ts:79-111` | a device's episodes are those of its samples alone, in the same order, however the devices interleave |
| `CapabilityEpisodes.EpisodesAreTheRuns` | `src/lib/capabilityEpisodes.ts:79-111` | they tell exactly the maximal runs of its samples in time order that share a value and lie at most fifteen minutes apart |
| `CapabilityEpisodes.RunsAreUnique` | `src/lib/capabilityEpisodes.ts:19-31` | there is only one way to cut samples into such runs |
| `CapabilityEpisodes.PeakOf` | `src/lib/capabilityEpisodes.ts:98` | the peak is drawn in the run and above all else drawn in it, none when no sample carried power |
| `CapabilityEpisodes.LimitOf` | `src/lib/capabilityEpisodes.ts:99` | the limit is the last one reported in the run |
| `CapabilityEpisodes.EveryReadingCountsOnce` | `src/lib/capabilityEpisodes.ts:79-111` | the sample counts add up to the samples whose timestamp parses, in whatever order they came |
| `CapabilityEpisodes.EpisodesAreListed` | `src/lib/capabilityEpisodes.ts:110` | episodes come out by when they began and then by device |
| `Csv.Neutralise` | `src/lib/csv.ts:23-25` | the text never starts with `=`, `+`, `-` or `@`, and gains an apostrophe exactly when it did |
| `Csv.WrittenAlike` | `src/lib/csv.ts:23-25` | two texts are written alike if and only if they are equal or differ by that apostrophe |
| `Csv.ToCsv` | `src/lib/csv.ts:37-43` | the loop comes to the printed table of the header and every row, absent values empty |
| `Csv.ReadCell` | `src/lib/csv.ts:27-33` | a parser of RFC 4180 reads a written cell back as its neutralised text, whatever it holds, and stops where it ends |
| `Csv.QuotedExactly` | `src/lib/csv.ts:27-33` | a cell is quoted if and only if its text holds a comma, a quote or a line break, is otherwise written as it is, and is empty for an absent value |
| `Csv.ReadLine` | `src/lib/csv.ts:45-49` | a written line is read back as its cells |
| `Csv.RoundTripExactly` | `src/lib/csv.ts:37-43` | a written table is read back whole if and only if it has one line or its last line is not a single empty cell; otherwise only that line is lost |
| `Csv.ReportsRoundTrip` | `src/lib/csv.ts:37-43` | a report of two columns or more is always read back whole |
| `Csv.OneColumnReports` | `src/lib/csv.ts:37-43` | a report of one column is read back whole if and only if it has no rows or its last row says something |
| `Csv.NoFormulaIsRead` | `src/lib/csv.ts:14-33` | no cell read back starts with `=`, `+`, `-` or `@` |
| `ReadingsExport.PageAll` | `src/lib/readingsExport.ts:116-141` | the loop comes to the paging defined on the replies, a failed request and a cursor that did not advance included |
| `ReadingsExport.PagingIsWholeExactly` | `src/lib/readingsExport.ts:116-141` | over a table that does not change, the cursor always advances, and the rows are the whole table in order if and only if no page was empty early and none was cut between two rows of one key |
| `ReadingsExport.PagingEndsWithEveryRow` | `src/lib/readingsExport.ts:116-141` | with unique keys and any page sizes of one or more the paging ends, with every row once and in order, within one request per row and one more |
| `ReadingsExport.ASharedKeyIsLost` | `src/lib/readingsExport.ts:129-136` | why the paging needs a key of its own, which the primary keys of both tables give it: of two rows of one key across a page boundary the second is never fetched |
| `ReadingsExport.TheCountLeavesNoHole` | `src/lib/readingsExport.ts:166-182` | with the table's own count rows are returned if and only if the paging was whole, and then they are the table |
| `ReadingsExport.NoHoleExactly` | `src/lib/readingsExport.ts:166-182` | rows returned beside the table's count, or beside none, are the whole table if and only if there was a count or the paging was whole |
| `ReadingsExport.NoHoleOfUniqueKeysExactly` | `src/lib/readingsExport.ts:166-182` | where keys are unique, as the primary keys make them (`supabase/schema.sql:42`), if and only if there was a count or no page was empty while rows remained |
| `ReadingsExport.WithoutACountAHoleGetsThrough` | `src/lib/readingsExport.ts:178-180` | without a number from the service a page empty too early is taken for the end of a table with a row left; with the number it is refused |
| `ReadingsExport.EveryHourIsToldOneWay` | `src/lib/readingsExport.ts:160-161` | no hour comes both as minutes and as an hourly row, and none that has either goes untold |
| `ReadingsExport.EachDeviceIsFetchedOnce` | `src/lib/readingsExport.ts:184-210` | in every run of the workers the devices are begun once each and in order, no two workers hold one, and a result is only what its own fetch gave |
| `ReadingsExport.FinishedIsFilled` | `src/lib/readingsExport.ts:193-210` | when every worker has ended, every device has its rows at its own index |
| `ReadingsExport.FetchingEnds` | `src/lib/readingsExport.ts:193-208` | each answered fetch fills one more index, of as many as there are devices |
| `ReadingsExport.WorkerCount` | `src/lib/readingsExport.ts:209` | as many workers as asked for or as there are devices, whichever is fewer, and at least one |
| `ReadingsExport.Fetching.constructor` | `src/lib/readingsExport.ts:209` | every worker takes its first device in turn |
| `ReadingsExport.Fetching.Store` | `src/lib/readingsExport.ts:194-207` | the rows go to the worker's own index and the worker goes on |
| `ReadingsExport.Fetching.Fail` | `src/lib/readingsExport.ts:197-209` | a failed fetch ends its worker and no other |
| `ReadingsExport.NamingOf` | `src/lib/readingsExport.ts:326-329` | a device goes by the first entry of its id in the list, and by its id exactly when there is none |
| `ReadingsExport.MinuteLine` | `src/lib/readingsExport.ts:334-339` | thirteen cells: who and when, then the figures of an online minute in their columns, or none of an offline one and the words that it is no reading |
| `ReadingsExport.HourlyLine` | `src/lib/readingsExport.ts:340-355` | thirteen cells: who and when, then the averages, the highest power, the energy, the coverage and the note, each in its column |
| `ReadingsExport.LinesTellEachReadingOnce` | `src/lib/readingsExport.ts:332-359` | a device's lines come in time order, and are its minutes and hours, each once |
| `ReadingsExport.ReadingsCsvParts` | `src/lib/readingsExport.ts:324-363` | the loop comes to the header and one part for each device that has lines, its lines as above |
| `ReadingsExport.PartsAreOneTable` | `src/lib/readingsExport.ts:324-363` | the parts one after the other are the single table of the header and every device's lines |
| `ReadingsExport.TheFileReadsBack` | `src/lib/readingsExport.ts:324-363` | for any devices and readings the exported file reads back as the header and every line of every device, cell by cell |

## Left out

- Supabase, `fetch`, WebSocket and DOM calls, the row mappers and the React pages: they are inputs or are not modelled.
- Floating point: kWh, W and quantile places are reals, so rounding, `NaN` and negative zero are not captured; a value that is not finite is a case of its own where the code tests for it.
- `Date` parsing, time zones and locale text: instants are integers (`None` where a string does not parse), dates are day numbers from the epoch, weekday flags are seven booleans, and `localeCompare` is any total preorder handed in.
- `Array.prototype.sort` is a stable sort by the comparator read as an order. The edge comparator at `src/lib/scheduleStack.ts:264` answers "before" for two off edges of one minute either way round; the order of such equal edges is not observable.
- In-place objects whose identity the code never exposes are values: `SpaceTree` builds children as sequences and `CapabilityEpisodes` replaces the open episode in its map, so aliasing of those objects is not captured.
- Command ids are taken to be distinct, as `crypto.randomUUID` makes them. Commands granted a slot may resume in any order, which covers the promise queue's own.
- Time: the state machines of `CommandStore` and `BridgeClient` leave it out, which for what every run keeps only adds runs. What a run is said to show is shown of their timed runs, in whole milliseconds: there timers, timeouts and resumed promises keep their order, a socket's handshake has no time limit, as in the source, and answers that come at one instant may come in any order.
- `BridgeClient`: an `onStatus` that throws, the token and the URL are not modelled; a socket closes only by its close event.
- `ReadingsExport`: a table that changes between pages is covered only by the count; abort signals, progress totals and the edge archive's answer are left out.
- `ReadingsExport.ReadingsCsvParts`: the texts of stamps, rounded figures and notes (`localStamp`, `round`, `jumpNotes`) are inputs.
- `BaselineProjection`: notes, phase currents and the row shapes of `projectPeriod` are left out; the sums and quantiles they hold are stated.
- `BranchEnergy`: a meter's id and name, the shares, the disagreement and the shortfall notices of `branchEnergySplit` are left out.
- `Timeseries`: `appendLiveTail`, `coarsen`, `sumSlotSeries` and `summarizeQuality` are not modelled.
- `BoundedEnergy`: `periodEnergyCheck`, `energyFlagOf` and `usableEnergy` are single comparisons and are left out.
- `ReportLoader`: `withTimeout`, `retryTransient` and the tests for a transient error are left out.
- `ScheduleStack`: `stackConflicts`, `acuWindowConflicts` and `ruleProblem` are left out; `shared/scheduleRules.mjs` is not part of this model.
- `authStore.ts`, the server, the bridge flows and the database schema are left out.
