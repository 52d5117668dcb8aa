# Verification of the pump control backend

This project models the parts of the repository that hold state machines and algorithms, and
proves what they are for. `dafny verify dfyconfig.toml` checks everything.

| file | what it models |
|---|---|
| `Commands.dfy`, `CommandService.dfy` | the durable command row and table: creation, both transactions of a dispatch, acknowledgement, result, the end of delivery |
| `Controller.dfy`, `DemoState.dfy` | the demo controller: ledger, anti-replay number, program executor, reply outbox |
| `Delivery.dfy` | the whole protocol between them: any interleaving of dispatchers, a network that loses, repeats, delays and reorders, restarts, replies |
| `Worker.dfy` | the reliability worker: candidate query, one cycle, fairness, draining |
| `Plans.dfy`, `Zones.dfy`, `Schedules.dfy`, `Overlap.dfy`, `OverlapLimits.dfy` | civil time, one run of a schedule, the windowed search for overlaps, and exactly where it is right |
| `Incidents.dfy`, `AlarmLifecycle.dfy` | alarm incidents and their append-only history |
| `AlarmRules.dfy`, `AlarmRuleEngine.dfy` | the telemetry rule engine with debounce and hysteresis over the incidents |
| `ControllerBroker.dfy`, `Access.dfy`, `AccessRuns.dfy`, `ControllerRegistry.dfy` | one factory controller through claiming, equipment, commissioning, rotation, revocation, release and reset |
| `Bindings.dfy` | access and delivery together: what a new configuration does to the commands bound to older ones |
| `JsonGuard.dfy` | the bounded JSON guard of the MQTT ingress |
| `Options.dfy` | `Option`, `Min`, `Max` |

How the pieces fit together:

- A locked database transaction is one atomic step. What happens between two transactions of one
  request is left to an arbitrary interleaving (`Delivery.Next`, `AccessRuns.Next`), but for the one
  call of the demo controller named under "Left out".
- Where the source changes objects in place, a class with those fields is proved method by method
  against a function on values; the properties of whole runs are then proved about that function.
- A run is a list of moves of any length. A move whose guard fails changes nothing, so every list
  is a run and theorems about runs have no hypothesis about the order of events.
- Command times are integer microseconds, calendar times integer seconds, the controller's
  monotonic clock is real.

Five properties one would expect do not hold of the code without a condition. Each is stated with
its exact condition, for all inputs, and with the family of inputs for which it fails:

- Overlap decisions are right for all rules of a zone if and only if no date that has come is still
  to come when the horizon ends; that is, unless a clock change has stepped back over midnight and
  the repeated stretch is not over yet. Otherwise a rule at midnight of that date has a run that the
  search misses (`OverlapLimits.ExactnessIsDateOrder`, `OverlapLimits.MidnightRunIsMissed`). The
  next run of a rule is right there too (`Overlap.NextRunIsEarliest`).
- The alarm tables agree with the debounce specification if and only if no specified resolution
  comes in a packet older than the raise before it (`AlarmRules.EngineMeetsSpecification`). Packets
  in time order satisfy that; the caller passes the server clock.
- An event never acts twice for a key if and only if the history holds it. A resolution that finds
  nothing leaves no entry, so the same event acts when it is repeated after a raise
  (`Incidents.InertExactlyIfRecorded`, `Incidents.UnusedResolutionActsLater`).
- A factory reset leaves no key open if and only if the row is in quarantine when it begins, or has
  no two control numbers left. From a ready row, a claim, a bootstrap and a quarantine between the
  two halves make it begin a new generation although the broker has not confirmed that the key is
  off: the second half checks generation and status, not the device (`AccessRuns.ResetSafety`,
  `AccessRuns.ResetCanLeaveAKeyOpen`). A release does check the device. In every case the old key
  is revoked in the database, and a later synchronisation turns it off (`AccessRuns.RetryCutsOff`).
- No final reply of the demo controller is lost if and only if each confirmation finds the reply
  that was read from the outbox. A scenario of a second process can end the active program between
  the two; the unconditional update then marks the new reply as delivered, and after the
  acknowledgement nobody asks for it again (`Delivery.NoReplyIsLost`,
  `Delivery.InterruptedReplyIsLost`).

## Model

| member | source | states |
|---|---|---|
| Commands.AttemptsAreBounded | backend/app/services/command_dispatch.py:71-73 | attempts spaced by the retry interval, none before creation and all before expiry, number at most ttl / interval rounded up |
| Commands.StopDeliveryProgresses | backend/app/services/command_outcomes.py:5-15 | ending delivery never claims that a possibly sent command was cancelled or expired, and the command is out of delivery for good |
| Commands.StoppedMeans | backend/app/services/command_outcomes.py:5-15 | for any row, also one of an older version: any trace of the network makes the outcome unknown, and only an untouched row gets the given status |
| Commands.BeginDispatchProgresses | backend/app/services/command_dispatch.py:48-97 | the first transaction only climbs the lifecycle, adds exactly one attempt if and only if it sends, before expiry and a full retry interval after the last attempt |
| Commands.SendsExactlyIf | backend/app/services/command_dispatch.py:54-97 | a dispatch sends exactly if the row is queued, or published and a full interval has passed, and it is not expired, not refused and the device is online |
| Commands.EndsExactlyIf | backend/app/services/command_dispatch.py:54-80 | when a dispatch ends a wait, a time to live or a refused delivery, with status and code, and that it changes nothing otherwise |
| Commands.AcknowledgeProgresses | backend/app/services/command_ack.py:70-90 | an acknowledgement is refused exactly for a command without attempts, otherwise it is recorded and the lifecycle only climbs |
| Commands.AcknowledgementIsPatient | backend/app/services/command_config.py:16-22 | an acknowledgement is on time exactly for a published row before its expiry, and its deadline then waits for the whole plan: every step with its transitions and two minutes, three minutes past the end of a calendar run, or the configured time |
| Commands.PatienceOutlastsThePlan | backend/app/schemas/program.py:50-53 | such a deadline is never before the program could have held all its steps, nor before the end of the calendar run |
| Commands.AcknowledgeDoes | backend/app/services/command_ack.py:70-97 | for any row: which acknowledgement is repeated, refused, late or on time, and what each changes |
| Commands.OlderRowsWaitToo | backend/app/services/command_dispatch.py:54-60 | an acknowledged row of an older version without a deadline gets one, from the acknowledgement or else the first attempt or the creation |
| Commands.CompleteProgresses | backend/app/services/command_result.py:86-114 | a result is refused as out of place exactly for a command without attempts; accepted or repeated, the row holds it |
| Commands.CompleteDoes | backend/app/services/command_result.py:86-114 | for any row: success and failure told apart, the first result counts and stands for a missing acknowledgement, and which results are repeated, conflicting or refused |
| Commands.ReplayChangesNothing | backend/app/services/command_ack.py:70-73 | any packet already processed can be replayed at any time, after any other packets, without changing the row, in particular without extending a deadline |
| Commands.VerdictArrives | backend/app/services/command_result.py:86-114 | after any mix of acknowledgements and one verdict the row records that verdict exactly if it arrived |
| Commands.FinalStateIsOrderFree | backend/app/services/command_result.py:56-114 | two arrival orders with any repetitions and times lead to the same final status and stored result |
| Commands.RequestIsValidExactlyIf | backend/app/schemas/command.py:24-75 | which requests are well formed, for each kind |
| Commands.CreateAnswers | backend/app/services/commands.py:102-146 | which answer every request gets, in the order of the checks; only a creation has an effect |
| Commands.FirstRowIs | backend/app/services/commands.py:153-182 | the stored row: the next number of the device, the request as it came, its expiry, and cancelled at once exactly if a Stop of the same author has named it |
| Commands.CreateDoes | backend/app/services/commands.py:144-183 | a Stop that no Stop has named ends exactly what is pending on its device, cancelled if never sent and open for its result otherwise; nothing else changes |
| Commands.RepeatedRequestIsIdempotent | backend/app/services/commands.py:108-125 | the same request again finds the first command and changes nothing, whatever the policy and the equipment say by then |
| Commands.EnvelopeCarriesTheRow | backend/app/services/command_dispatch.py:83-88 | the message carries the command as it was stored, in version 3 exactly with an equipment target |
| CommandService.DeviceCommand.constructor | backend/app/services/commands.py:153-174 | the row object starts queued with its number, expiry and no attempt |
| CommandService.DeviceCommand.StopDelivery | backend/app/services/command_outcomes.py:5-15 | the in-place update is the transition on the row value, nothing else changes |
| CommandService.DeviceCommand.BeginDispatch | backend/app/services/command_dispatch.py:50-97 | every branch of the first dispatch transaction in place equals the transition, with its outcome |
| CommandService.DeviceCommand.FinishDispatch | backend/app/services/command_dispatch.py:102-108 | only the publish error field may change, as the transition says |
| CommandService.DeviceCommand.Acknowledge | backend/app/services/command_ack.py:70-97 | on-time, late, repeated and refused acknowledgements in place |
| CommandService.DeviceCommand.Complete | backend/app/services/command_result.py:86-114 | first, repeated, conflicting and refused results in place |
| CommandService.CommandService.Dispatch | backend/app/services/command_dispatch.py:38-97 | a dispatch changes exactly one row of the table |
| CommandService.CommandService.FinishDispatch | backend/app/services/command_dispatch.py:102-108 | so does its second transaction |
| CommandService.CommandService.Acknowledge | backend/app/services/command_ack.py:52-97 | unknown command and foreign device leave the whole table alone, otherwise exactly one row changes |
| CommandService.CommandService.Complete | backend/app/services/command_result.py:68-114 | the same for results |
| CommandService.CommandService.StopPending | backend/app/services/commands.py:150-152 | the loop ends delivery of every queued or published command of the device and of no other |
| CommandService.CommandService.Register | backend/app/services/commands.py:144-183 | numbering, superseding in either arrival order and filing, as one effect on the table |
| CommandService.CommandService.Create | backend/app/services/commands.py:91-185 | idempotent repeats, conflicts, refusals, exhaustion and registration, each with its whole effect |
| Controller.FinishKeeps | backend/app/demo/state.py:214-231 | ending a program keeps the ledger, leaves no active program and never changes a reply already given |
| Controller.LedgerNews | backend/app/demo/state.py:127-197 | an event adds at most the delivered envelope to the ledger, and only after it arrived |
| Controller.RunKeeps | backend/app/demo/state.py:58-273 | over every run: a reply is null exactly for the active program, executions are numbered upwards and in time, the pump runs at the current step's frequency |
| Controller.RepliesNeverChange | backend/app/demo/state.py:129-135 | a reply once given is the same at every later time, across restarts |
| Controller.ExecutedAtMostOnce | backend/app/demo/state.py:127-196 | no command id is executed twice in any run |
| Controller.StopHolds | backend/app/demo/state.py:178-184 | after an executed Stop the pump is off and no program active until a later accepted start |
| Controller.CalendarStepIsElapsedTime | backend/app/demo/state.py:244-255 | at a tick the step of a calendar run is the interval of the prefix sums that contains the elapsed time, and the run ends exactly when the total is reached |
| Controller.TickPatternIsIrrelevant | backend/app/demo/state.py:237-255 | for a calendar run any earlier ticks leave the same step, frequency, remaining time and ending as the last tick alone |
| Controller.SuccessTakesFullTime | backend/app/demo/state.py:171-173 | a program reports success only after the sum of all its step durations since it began |
| Controller.FaultStopsEverything | backend/app/demo/state.py:71-78 | over every run: with a faulted drive the pump is off, and a program is active only in normal mode |
| Controller.ExecutedExactlyIf | backend/app/demo/state.py:127-165 | a message is executed exactly if it is new, valid, of version 2, within its time, above the last number, and can be done now: a Stop always, the rest only in normal mode without an active program, and a program only with the pump off |
| Controller.OnlyFeasibleIsExecuted | backend/app/demo/state.py:155-165 | over every run: nothing above 50 Hz is ever executed, and no calendar run outside thirty seconds, or its first step, from its start |
| Controller.RefusedBecause | backend/app/demo/state.py:144-165 | the one reason given for each refusal, by what is wrong first |
| Controller.ExecutionTakesEffect | backend/app/demo/state.py:167-197 | pump, frequency, program, its clock and the reply after each executed command |
| Controller.RepeatsAreReplayed | backend/app/demo/state.py:112-143 | a repeat only asks for its stored reply again, and a dropped message changes nothing |
| Controller.EndedProgramReports | backend/app/demo/state.py:214-231 | how a program ends for each reason: the pump off, the steps counted, the phase and the code of the reply |
| Controller.ModeEndsProgram | backend/app/demo/state.py:71-78 | each mode ends the program with its own reason and changes nothing else |
| Controller.RemainingIsTimeLeft | backend/app/demo/state.py:237-266 | the reported seconds are what is left of the step, rounded up |
| DemoState.DemoState.constructor | backend/app/demo/state.py:33-53 | a fresh store: pump off, 40 Hz, number 0, empty ledger |
| DemoState.DemoState.FinishProgram | backend/app/demo/state.py:214-231 | in place: program row, pump and reply change together, or nothing does |
| DemoState.DemoState.Boot | backend/app/demo/state.py:58-63 | a restart interrupts the active program and keeps ledger and number |
| DemoState.DemoState.ChangeMode | backend/app/demo/state.py:71-78 | fault and offline end the program with their own reasons, fault stops the pump |
| DemoState.DemoState.Check | backend/app/demo/state.py:144-165 | the refusal code that survives the sequence of checks, where later ones replace earlier ones |
| DemoState.DemoState.Execute | backend/app/demo/state.py:167-184 | the effect and the reply data of each accepted command |
| DemoState.DemoState.Command | backend/app/demo/state.py:112-197 | replay, drop or record with ledger, number and effect in one commit |
| DemoState.DemoState.TickProgram | backend/app/demo/state.py:237-266 | the loop over the steps finds the step of the elapsed time; plain programs advance one step |
| DemoState.DemoState.Confirm | backend/app/demo/state.py:271-273 | only the pending mark of that reply is cleared |
| Delivery.NextKeeps | backend/app/services/command_dispatch.py:89-97 | every single move of backend, network and controller keeps the cross-component invariant; only committed attempts can be on the network |
| Delivery.FloorKeeps | backend/app/services/telemetry.py:181-187 | a number reported by the controller only moves the numbering up |
| Delivery.RunKeeps | backend/app/services/command_dispatch.py:38-108 | so does every run |
| Delivery.RunGrows | backend/app/services/command_result.py:86-114 | in every run rows, replies and possible envelopes stay, and each command only climbs its lifecycle |
| Delivery.ExecutionIsOrdered | backend/app/demo/state.py:127-196 | end to end, each command is executed at most once, in strictly increasing control number, never at or after its expiry |
| Delivery.NumbersFollowCreation | backend/app/services/commands.py:119-146 | what a device registered before a moment is numbered below everything it registers later |
| Delivery.ExecutionFollowsCreation | backend/app/demo/state.py:145-152 | executions form a subsequence of the creation order |
| Delivery.RepliesAgree | backend/app/services/command_result.py:56-95 | no published reply is ever refused, neither as a conflict nor as out of place, and a stored terminal result is the ledger's verdict |
| Delivery.AcknowledgedWasReceived | backend/app/services/command_ack.py:52-69 | over every run: a command of the pump counts as received only if the pump has received and answered it, whatever other devices send |
| Delivery.NoReplyIsLost | backend/app/demo/state.py:268-273 | over every run: no final reply leaves the outbox unpublished, if and only if each confirmation finds the reply that the sending loop had read |
| Delivery.OnlyStaleConfirmLoses | backend/app/demo/simulator.py:99-108 | of all moves exactly a confirmation of a reply that came in after the row was read loses one |
| Delivery.InterruptedReplyIsLost | backend/app/demo/simulator.py:99-108 | from every run in which the acknowledgement of an unfinished program is out: a fault or offline scenario before the confirmation loses the final reply, and once the acknowledgement is in, nothing makes a new attempt for the command |
| Delivery.ReplyCanBeLost | backend/app/demo/simulator.py:145-146 | for all settings there is such a run from the empty tables |
| Delivery.ReplyGetsThrough | backend/app/demo/simulator.py:99-108 | from every moment of every run a final reply that waits in the outbox of a connected pump can be delivered: stored with its command, and waiting no longer |
| Delivery.ResultsFollowAcks | backend/app/demo/simulator.py:104-107 | over every run: a result is published only after its acknowledgement |
| Delivery.OfflineIsSilent | backend/app/demo/simulator.py:101-102 | a pump that is cut off publishes no acknowledgement, and no result without one |
| Delivery.OutcomesAreHonest | backend/app/services/command_outcomes.py:5-15 | a cancelled or expired command was never on the network and never will be; one that may have been sent is never reported so |
| Delivery.StopFreezesOlder | backend/app/services/commands.py:144-152 | once a Stop that is not superseded commits, no older command of the device is attempted again |
| Delivery.LateRequestIsCancelled | backend/app/services/commands.py:176-182 | a request that arrives after the Stop that names it is stored cancelled and never attempted |
| Delivery.StopRules | backend/app/demo/state.py:178-184 | after an executed Stop the pump runs only if a start with a larger number was executed since |
| Delivery.AttemptsStayBounded | backend/app/services/command_dispatch.py:71-97 | with any interleaving and crashes, at most ttl / interval attempts rounded up, all between creation and expiry |
| Delivery.RowsWait | backend/app/services/command_ack.py:90-97 | over every run: every deadline is worth the whole plan from the acknowledgement on, and a result counts as missing only after it |
| Delivery.NoPlanIsGivenUpEarly | backend/app/services/command_dispatch.py:54-60 | over every run: no program is given up before its steps could have been held since the acknowledgement, and no calendar run before its end |
| Delivery.StoredIsValid | backend/app/services/commands.py:153-174 | over every run: only well-formed requests are stored, and a stored request never changes |
| Worker.Least | backend/app/repositories/commands.py:85-91 | the minimum of the query's five-part sort key |
| Worker.ListCandidates | backend/app/repositories/commands.py:39-94 | exactly the first `limit` due commands in key order |
| Worker.BatchIsUnique | backend/app/repositories/commands.py:85-92 | the filter, the order and the limit determine one answer |
| Worker.DueIsWork | backend/app/repositories/commands.py:54-84 | the query finds exactly the rows for which a dispatch at that reading would send, expire or time out |
| Worker.OrderMeans | backend/app/repositories/commands.py:62-91 | what has run out comes first, by its deadline, then deliveries by readiness and expiry; ties by creation and id |
| Worker.OnlineForAWindow | backend/app/repositories/commands.py:44-52 | a device counts as online until the window after its last contact is over |
| Worker.DispatchOne | backend/app/services/command_reliability.py:58-67 | one dispatch of the worker changes exactly its row |
| Worker.TransmittedMeans | backend/app/services/command_reliability.py:58-67 | a transmission is counted exactly for a new attempt without transport error; a dispatch that raises before its commit leaves the row alone |
| Worker.RunCycle | backend/app/services/command_reliability.py:43-86 | a cycle dispatches exactly its batch, each once with its own reading of the clock, goes on past dispatches that raise before or between their transactions, and counts the transmissions |
| Worker.CycleDoes | backend/app/services/command_reliability.py:58-67 | a cycle changes exactly the rows it picked, each by its own answer |
| Worker.CountMeans | backend/app/services/command_reliability.py:58-86 | the count of a cycle is the number of commands it transmitted |
| Worker.SelectedMoves | backend/app/services/command_reliability.py:58-67 | a selected candidate whose dispatch commits makes an attempt, leaves the queue or gets a deadline, even if others touched it in between and whatever follows the commit, and is not due again at the cycle's reading; only a device that went offline in between leaves its row as it was |
| Worker.StillAhead | backend/app/repositories/commands.py:54-60 | whoever is ahead of a waiting command in the next cycle was ahead before and was not picked, unless it overtook (back online, or filed since with an older creation time) or its dispatch stalled (raised before its commit, or offline in between) |
| Worker.PlaceImproves | backend/app/repositories/commands.py:54-92 | place in the next cycle + places that urgent commands leave over <= place now + those who overtook or stalled, whatever others do to the rows during and between the cycles |
| Worker.NoStarvation | backend/app/repositories/commands.py:54-92 | with `room` places left per cycle, a command that waits through n cycles had at least n * room commands ahead of it, overtaking it or stalling on the way |
| Worker.SteadyWait | backend/app/repositories/commands.py:54-92 | where no device reconnects, nothing is filed late and no dispatch stalls, it waits at most (commands ahead) / room cycles |
| Worker.RoundCloses | backend/app/services/command_dispatch.py:54-70 | a cycle past all deadlines closes a whole batch, or everything, but for exactly the picks that are left open because their dispatch raised |
| Worker.QueueDrains | backend/app/services/command_reliability.py:43-86 | past all deadlines and without new commands, n cycles leave at most count - n * limit commands open besides those whose dispatch raised; without raising nothing is queued, published or acknowledged after count / limit cycles, rounded up |
| Zones.CivilUtcIsEarliest | backend/app/services/schedule_calendar.py:12-17 | the resolved instant is the earliest one that renders as the local time, and None exactly if none does |
| Zones.EarlierShowsEarlier | backend/app/services/schedule_calendar.py:12-17 | everything before a resolved instant shows an earlier local time, whatever the clock did in between |
| Zones.ResolvedInOrder | backend/app/services/schedule_calendar.py:12-17 | local times that exist resolve in their own order |
| Zones.FixedOffset | backend/app/services/schedule_calendar.py:12-17 | with a constant offset every local time resolves, to itself minus the offset |
| Plans.ThroughIncreases | backend/app/schemas/program.py:44-48 | prefix sums of the step durations are strictly increasing |
| Schedules.FieldsAreValidExactlyIf | backend/app/schemas/schedule.py:36-53 | the limits of the single fields, with times on whole minutes |
| Schedules.CheckCoherent | backend/app/schemas/schedule.py:83-114 | the loop with its running previous point accepts exactly the coherent specifications, within the years 2000 to 2199 |
| Schedules.RunOnDate | backend/app/services/schedule_calendar.py:32-50 | the imperative construction of a run equals its declarative description, including every reason for no run |
| Schedules.RunsOnMeantDates | backend/app/services/schedule_calendar.py:20-33 | in any zone a rule has a run exactly on the dates it is meant for (the start, the listed weekdays, every n-th day, the day of the month or its last one, the anniversary; in its months, without exclusions) unless a clock change breaks the plan |
| Schedules.Boundaries | backend/app/services/schedule_calendar.py:35-41 | start, changes and stop as resolved instants, with their frequencies |
| Schedules.BuildRun | backend/app/services/schedule_calendar.py:42-50 | durations between consecutive instants, or no run |
| Schedules.DurationsTelescope | backend/app/services/schedule_calendar.py:44 | durations sum to the distance of the outer instants |
| Schedules.RunsAreValid | backend/app/schemas/schedule.py:128-136 | a constructed run always passes the run validation: the steps cover the interval exactly, within all limits |
| Schedules.FixedZoneKeepsWallClock | backend/app/services/schedule_calendar.py:32-50 | with a constant offset a coherent rule has a run on exactly those dates, with exactly the wall-clock plan |
| Schedules.CoherentPlansLast | backend/app/schemas/schedule.py:102-113 | there every step of a coherent rule lasts at least a minute and the run at most a week, within the years 2000 to 2199 |
| Schedules.StepsFollowTheRule | backend/app/services/schedule_calendar.py:35-50 | in any zone each step begins when the local clock shows its time, at its frequency |
| Schedules.WeekHasEachWeekday | backend/app/services/schedule_calendar.py:25 | in any clear week a weekly rule is meant for exactly one date of each listed weekday and no other |
| Schedules.WeekHasAllWeekdays | backend/app/services/schedule_calendar.py:25 | that is as many dates as it lists weekdays |
| Schedules.MonthHasOneDate | backend/app/services/schedule_calendar.py:20-29 | in any clear month a monthly rule is meant for its one date, the last one for -1, and none if the month is too short |
| Overlap.Upcoming | backend/app/services/schedule_calendar.py:53-67 | the day loop returns the first `limit` of all coming runs |
| Overlap.OverlapWindow | backend/app/services/schedule_calendar.py:70-72 | the bounded look-back call returns all coming runs of its interval: its limit of days + 10 truncates in no zone with offsets inside a day |
| Overlap.ComingExactly | backend/app/services/schedule_calendar.py:53-67 | in any zone whatever, the runs listed are those over all dates that start in the interval and whose date lies between the dates of its ends |
| Overlap.ComingInOrder | backend/app/services/schedule_calendar.py:53-67 | in order of starts and stops, and only the end of the interval can hide a run: exactly when its date is earlier than that of the run |
| Overlap.AllComingIsComplete | backend/app/services/schedule_calendar.py:53-67 | where no date of the rule returns after the end, those are all runs that start in the interval |
| Overlap.NextRunIsEarliest | backend/app/services/schedule_calendar.py:53-67 | the first listed run is the earliest run at or after the reference, even where the date steps back |
| Overlap.WindowIsExact | backend/app/services/schedule_calendar.py:70-72 | the window is always in order, and where no date of the rule returns after the horizon it holds exactly the runs of all dates starting in [after - 7 d, after + days) |
| Overlap.Sweep | backend/app/services/schedule_calendar.py:84-90 | the two-pointer sweep finds a meeting pair exactly if one exists |
| Overlap.FirstOverlap | backend/app/services/schedule_calendar.py:80-90 | true exactly if an instant not before `after` lies inside a run of each rule that starts before after + days, over all dates |
| Overlap.SharedInHorizon | backend/app/services/schedule_calendar.py:80-90 | with at least a day of horizon that is an instant of [after, after + days) itself |
| Overlap.NeighboursSuffice | backend/app/services/schedule_calendar.py:77 | with starts and ends in order the adjacent-pair test is complete |
| Overlap.SelfOverlapIsExact | backend/app/services/schedule_calendar.py:75-77 | true exactly if an instant of the window lies inside two different runs of the rule |
| OverlapLimits.ExactnessIsDateOrder | backend/app/services/schedule_calendar.py:53-90 | for any calendar, any horizon and every zone with whole-minute changes: the windows of all valid rules are exact, and all overlap decisions are right, if and only if no date of the years 2000 to 2199 that has come is still to come at the end of the horizon |
| OverlapLimits.MidnightRunIsMissed | backend/app/services/schedule_calendar.py:57-63 | otherwise a valid rule at midnight of that date has a run that the search does not list, though it runs within the horizon |
| OverlapLimits.SomeZoneStepsBack | backend/app/services/schedule_calendar.py:57-63 | there are such zones: with the clock of St. John's in 2010 the horizons at fault are exactly those that end in the repeated hour |
| Incidents.LawfulShape | backend/app/services/alarms.py:200-439 | a consistent history is raised once and first, acknowledged at most once, has nothing after its resolution, counts every occurrence and has its times in order |
| Incidents.RaiseKeeps | backend/app/services/alarms.py:200-341 | raising keeps rows and history in agreement, in the new, repeated and stale branches |
| Incidents.ResolveKeeps | backend/app/services/alarms.py:346-436 | so does resolving, stale or not |
| Incidents.AcknowledgeKeeps | backend/app/services/alarms.py:145-195 | so does acknowledging |
| Incidents.RunKeeps | backend/app/services/alarms.py:145-439 | every sequence of calls keeps the invariant and only appends history |
| Incidents.HistoryIsComplete | backend/app/services/alarms.py:84-88 | at most one active incident per device and key, and every row is exactly what replaying its own entries tells |
| Incidents.IncidentsAreConsistent | backend/app/services/alarms.py:145-439 | the lawful shape holds for every incident of every run, with first <= last <= resolved and the occurrence count |
| Incidents.ResolvedIsFrozen | backend/app/services/alarms.py:169-170 | no later call changes a resolved incident in any field |
| Incidents.RepeatedEventIsInert | backend/app/services/alarms.py:116-143 | an event that was carried out changes nothing when repeated, whatever happened since and whichever operation repeats it |
| Incidents.InertExactlyIfRecorded | backend/app/services/alarms.py:116-143 | in any consistent tables a known event changes nothing for a key, now and after any other calls, if and only if the history holds it for that key |
| Incidents.UnusedResolutionActsLater | backend/app/services/alarms.py:378-395 | from any consistent tables: a resolution that found nothing resolves, when repeated, any incident newly raised since for its key that is not newer |
| Incidents.RefusedExactlyIf | backend/app/services/alarms.py:94-143 | which events are refused, for each reason |
| Incidents.RaiseDoes | backend/app/services/alarms.py:200-341 | a new incident with everything it is given, or a repeat that is counted and, unless stale, brings time, event, severity, description and context up to date |
| Incidents.ResolveDoes | backend/app/services/alarms.py:346-436 | closes the active incident unless stale, with its event and context; nothing else changes |
| Incidents.AcknowledgeDoes | backend/app/services/alarms.py:145-195 | marks an active incident of the device once, and the answer in every other case |
| AlarmLifecycle.DeviceAlarm.Repeat | backend/app/services/alarms.py:278-294 | the in-place repeat, stale or not |
| AlarmLifecycle.AlarmLifecycleService.GetActive | backend/app/repositories/alarms.py:51-66 | the search finds the active incident of the key, if any |
| AlarmLifecycle.AlarmLifecycleService.Check | backend/app/services/alarms.py:94-143 | missing device, missing or foreign event and duplicate, in this order |
| AlarmLifecycle.AlarmLifecycleService.RaiseAlarm | backend/app/services/alarms.py:200-341 | rows and history in place, with the reply of every branch |
| AlarmLifecycle.AlarmLifecycleService.ResolveAlarm | backend/app/services/alarms.py:346-436 | the same for resolving |
| AlarmLifecycle.AlarmLifecycleService.AcknowledgeAlarm | backend/app/services/alarms.py:145-195 | the same for acknowledging |
| AlarmRules.SwitchesAreUnique | backend/app/services/alarm_rule_engine.py:111-125 | the declarative specification of the switches has one solution |
| AlarmRules.RaisesAreApart | backend/app/services/alarm_rule_engine.py:298-318 | two successive raises are at least twice the debounce apart in present samples |
| AlarmRules.DebounceRefinement | backend/app/services/alarm_rule_engine.py:232-378 | on every sample stream the counters switch exactly at the specified points, and the pending count is the length of the speaking suffix, below the debounce |
| AlarmRules.BandsAreApart | backend/app/schemas/alarm_rule.py:38-48 | no value speaks both for raising and for resolving |
| AlarmRules.SpeaksForLeaving | backend/app/services/alarm_rule_engine.py:112-125 | the decision on a number by plain comparison: a high rule raises at or above its threshold and resolves at or below its clear value, a low rule the other way round |
| AlarmRules.SwitchesInNumbers | backend/app/services/alarm_rule_engine.py:112-125 | before each switch stand as many such numbers in a row as the debounce asks for |
| AlarmRules.NoRowIsOverlooked | backend/app/services/alarm_rule_engine.py:298-318 | and every such row since the last switch does switch |
| AlarmRules.RaiseActivates | backend/app/services/alarm_rule_engine.py:342-354 | a carried out raise always creates a new active incident at that time |
| AlarmRules.ResolveDeactivates | backend/app/services/alarm_rule_engine.py:355-364 | a carried out resolution not older than the last raise leaves nothing active |
| AlarmRules.RaiseCarriesTheRule | backend/app/services/alarm_rule_engine.py:342-354 | the new incident has the severity and the details of the rule and the event of the packet |
| AlarmRules.ResolutionCarriesTheRule | backend/app/services/alarm_rule_engine.py:355-364 | the closed incident has the event, the time of the packet and the context of the rule |
| AlarmRules.ResultTells | backend/app/services/alarm_rule_engine.py:232-391 | what is reported for a rule, its count and the stored counter, for every state the packet finds |
| AlarmRules.PresentRulesReport | backend/app/services/alarm_rule_engine.py:220-391 | every rule whose metric is in the packet reports once, in the order of the rules, and an unknown device nothing |
| AlarmRules.RuleIsValidExactlyIf | backend/app/schemas/alarm_rule.py:20-48 | which rules are valid |
| AlarmRules.OwnStep | backend/app/services/alarm_rule_engine.py:232-378 | evaluating a rule on the tables is one step of its counter machine |
| AlarmRules.OtherStep | backend/app/services/alarm_rule_engine.py:232-378 | evaluating another rule or device does not disturb it |
| AlarmRules.EngineFollows | backend/app/services/alarm_rule_engine.py:196-391 | after any packets, in whatever order of time, and foreign calls the tables show every rule's counters and incident |
| AlarmRules.EngineMeetsSpecification | backend/app/services/alarm_rule_engine.py:196-391 | for all admissible inputs and the one list of switches that meets the declarative specification: at every moment a rule's incident is active exactly if the number of specified switches so far is odd, if and only if no resolving switch comes in a packet older than that of the raising switch before it |
| AlarmRules.AgreementIsFreshness | backend/app/services/alarms.py:397-406 | the same for what the tables show of one rule, with its counter |
| AlarmRules.CounterMeetsSpecification | backend/app/services/alarm_rule_engine.py:298-318 | then the durable counter is the length of the speaking suffix since the last specified switch, below the debounce |
| AlarmRules.OrderIsFresh | backend/app/services/alarms.py:397-406 | packets in time order bring no specified resolution that is too old |
| AlarmRules.OldPacketKeepsIncident | backend/app/services/alarms.py:397-406 | a stream for which the condition fails: the incident stays although the specification switches back |
| AlarmRuleEngine.TelemetryAlarmRuleEngine.Count | backend/app/repositories/alarm_rules.py:63-75 | the pending counter in place: one more, or one for a new action |
| AlarmRuleEngine.TelemetryAlarmRuleEngine.EvaluateOne | backend/app/services/alarm_rule_engine.py:232-378 | every branch for one rule, with counters, event, incident and result |
| AlarmRuleEngine.TelemetryAlarmRuleEngine.EvaluatePacket | backend/app/services/alarm_rule_engine.py:220-391 | the loop over the rules is their composition in order |
| AlarmRuleEngine.LoadRules | backend/app/services/alarm_rule_engine.py:64-105 | returns the enabled rules on no system key exactly if every configuration is valid and no key comes twice; what it returns satisfies the engine's needs |
| AlarmRuleEngine.ChosenMeans | backend/app/services/alarm_rule_engine.py:64-105 | loading keeps exactly the enabled rules on no system key, as often as they are configured |
| ControllerBroker.PrefixAccount | backend/app/services/controller_broker.py:90-120 | the account after every possible interruption point |
| ControllerBroker.OldPasswordStaysOff | backend/app/services/controller_broker.py:116-120 | once the disabling request took effect, no later interruption leaves the account open with the old password |
| AccessRuns.OldPasswordNeverReturns | backend/app/services/controller_broker.py:116-120 | in every run, once an account is closed to the passwords below the current key, no step opens it to them again |
| ControllerBroker.OthersUntouched | backend/app/services/controller_broker.py:90-120 | no other account or role changes |
| ControllerBroker.FullApplySettles | backend/app/services/controller_broker.py:90-120 | a confirmed `apply` leaves the account off, or on with the new password and its role, from any state |
| ControllerBroker.RetriesConverge | backend/app/services/controller_broker.py:90-120 | after any interrupted attempts with any intents, one full attempt settles the account |
| ControllerBroker.ControllerBroker.Ask | backend/app/services/controller_broker.py:72-88 | one request: answered, or unanswered with or without effect |
| ControllerBroker.ControllerBroker.Apply | backend/app/services/controller_broker.py:90-120 | the sequence of requests as a prefix of its plan, confirmed exactly if all were answered |
| Access.SynchronizeKeeps | backend/app/services/controller_credentials.py:50-62 | a synchronisation, cut short anywhere, keeps keys and broker consistent and touches nothing else; carried through, the key counts as applied and the broker does what it says |
| Access.CommissionExactlyIf | backend/app/services/controller_lifecycle.py:122-176 | what commissioning takes: a device in use and out of maintenance, its latest configuration verified, stopped, a firmware that reaches the mode, and the motor for the extended test; and what it then stores |
| Access.FirmwareEndsExactly | backend/app/services/controller_lifecycle.py:51-59 | a reported capability is stored, and ends exactly the grants it no longer reaches |
| Access.ConfigureExactlyIf | backend/app/services/equipment.py:265-364 | what a configuration takes, and the revision, binding and generation it gets |
| Access.ReplaceExactlyIf | backend/app/services/equipment.py:366-423 | what a replacement takes, and which drives the device has then |
| Access.ClaimDoes | backend/app/services/onboarding.py:355-370 | what a claim and a new drive take and add |
| Access.GreetingMeans | backend/app/services/controller_lifecycle.py:179-200 | what a reporting controller is told for each state of its row, and when it gets its first key |
| Access.RecheckEndsExactly | backend/app/services/controller_lifecycle.py:210-223 | which grants end before the answer |
| Access.GrantCountsExactlyIf | backend/app/services/controller_lifecycle.py:62-75 | when a grant counts, in any state of the row |
| Access.AnsweredExactlyIf | backend/app/services/controller_lifecycle.py:203-242 | a claimed controller is answered exactly with a confirmed key |
| Access.OperateExactlyIf | backend/app/services/controller_lifecycle.py:287-325 | what rotation, revocation and release take: generation, key and, where control goes, a stopped device |
| Access.RenewDoes | backend/app/services/equipment.py:57-77 | a renewed confirmation is the next revision of the same drive and binding under a new hash |
| Access.OperateDoes | backend/app/services/controller_lifecycle.py:287-325 | what each of them does to key, access, grant, configuration and device |
| Access.FinishReleaseExactlyIf | backend/app/services/controller_lifecycle.py:327-343 | the hand-over looks at generation, status and device again |
| Access.ResetDoes | backend/app/services/controller_lifecycle.py:364-400 | what both halves of a reset take and do |
| Access.QuarantineDoes | backend/app/api/v1/onboarding.py:270-278 | a quarantine ends the grant and revokes the key of the device |
| AccessRuns.AnswerKeeps | backend/app/services/controller_lifecycle.py:203-242 | what a configured controller is told is the grant in force, after outdated grants were ended |
| AccessRuns.NextKeeps | backend/app/services/controller_lifecycle.py:122-420 | every step of every interleaving keeps the invariant, and the records only grow |
| AccessRuns.RunKeeps | backend/app/services/controller_lifecycle.py:122-420 | so does every run, with crashes and broker failures anywhere |
| AccessRuns.GrantChangesAreNumbered | backend/app/services/controller_lifecycle.py:43-48 | the control number never falls and is strictly larger whenever the grant differs |
| AccessRuns.RepliesAgree | backend/app/services/controller_lifecycle.py:213-240 | two commissioned replies with the same control number carry the same mode and configuration hash |
| AccessRuns.GrantWasApproved | backend/app/services/controller_lifecycle.py:122-164 | a grant in force was commissioned in this very run under the control number in force, on site verified and stopped, for the latest configuration of the claimed device |
| AccessRuns.CommissionedWasApproved | backend/app/services/controller_lifecycle.py:62-75 | a controller is told that it is commissioned only with a mode and configuration approved under the same control number |
| AccessRuns.ToldExactlyTheGrant | backend/app/services/controller_lifecycle.py:207-242 | commissioned exactly if the grant is for the latest configuration of an active device with control still on, and then exactly the grant is told |
| AccessRuns.OnlyCommissionGrants | backend/app/services/controller_lifecycle.py:160-164 | no step but a successful commissioning creates or changes a grant |
| AccessRuns.GrantIsSupported | backend/app/services/controller_lifecycle.py:133-135 | over every run: a stored extended test needs the full firmware capability, anything beyond reading more than reading, and a claimed controller with access |
| AccessRuns.ReleaseIsConfirmed | backend/app/services/controller_lifecycle.py:326-353 | a released device is off at the broker from the hand-over on and for ever |
| AccessRuns.NewGenerationIsSafe | backend/app/services/controller_lifecycle.py:332-336 | a new generation begins only at the end of a release or reset; the old key is revoked by then, and confirmed off if the session began with the device that the row still holds |
| AccessRuns.ResetSafety | backend/app/services/controller_lifecycle.py:364-391 | for every reachable row that admits a reset: in every continuation it leaves no key open, if and only if the row is in quarantine or has no two control numbers left |
| AccessRuns.ResetCanLeaveAKeyOpen | backend/app/services/controller_lifecycle.py:364-391 | from every ready row with two control numbers left: a claim, a bootstrap and a quarantine between its halves let a reset begin a new generation while the key still opens the account |
| AccessRuns.RetryCutsOff | backend/app/services/controller_credentials.py:65-89 | from any reachable state one synchronisation that reaches the broker cuts off a former device for good |
| AccessRuns.ReleaseCanBeCompleted | backend/app/services/controller_lifecycle.py:287-343 | a release with the generation and key in force of a stopped device can be completed |
| AccessRuns.ResetCanBeCompleted | backend/app/services/controller_lifecycle.py:364-400 | so can the reset of a quarantined controller |
| AccessRuns.BootstrapIsAnswered | backend/app/services/controller_lifecycle.py:179-242 | a claimed controller with access and a valid key that reports in on its network gets its answer |
| AccessRuns.RevisionsAreGapless | backend/app/services/equipment.py:325-330 | configuration revisions are 1, 2, 3, ... and never recur |
| AccessRuns.HashesStayApart | backend/app/services/equipment.py:325-350 | over every run: a hash names one configuration of one device |
| AccessRuns.OldBindingGetsNoAttempt | backend/app/services/equipment.py:161-166 | a command bound to one configuration gets no new attempt at any time after the next exists |
| Bindings.JointRunKeeps | backend/app/services/commands.py:139-143 | access and delivery interleaved in any way: every command of a claimed device stays bound to one of its configurations, and both keep their own invariants |
| Bindings.CheckedMeans | backend/app/services/equipment.py:136-166 | a new command of a claimed device must name its confirmed latest configuration, and an attempt goes through only for a command bound to it |
| Bindings.SupersededIsFrozen | backend/app/services/equipment.py:161-166 | in every run, a command whose configuration is no longer the latest has the same attempts and the same possible envelopes for ever |
| Bindings.NewConfigurationEndsDelivery | backend/app/services/command_dispatch.py:71-80 | a new configuration ends the delivery of everything filed for the device before it |
| ControllerRegistry.FactoryController.InvalidateControl | backend/app/services/controller_lifecycle.py:43-48 | number and grant in place, or failure at the end of the range |
| ControllerRegistry.ControllerRegistry.IssueKey | backend/app/services/controller_credentials.py:28-39 | a new key in place |
| ControllerRegistry.ControllerRegistry.RevokeKey | backend/app/services/controller_credentials.py:42-47 | revocation in place, once |
| ControllerRegistry.ControllerRegistry.SynchronizeKey | backend/app/services/controller_credentials.py:50-62 | the durable intent is cleared only after the broker confirmed everything |
| ControllerRegistry.ControllerRegistry.ClaimController | backend/app/services/onboarding.py:355-370 | a claim of a ready controller with a new device |
| ControllerRegistry.ControllerRegistry.ConfigureDevice | backend/app/services/equipment.py:265-364 | the whole effect, or a rollback without any |
| ControllerRegistry.ControllerRegistry.ReplaceDrive | backend/app/services/equipment.py:366-423 | the same for a replacement |
| ControllerRegistry.ControllerRegistry.CommissionDevice | backend/app/services/controller_lifecycle.py:122-176 | the same for commissioning |
| ControllerRegistry.ControllerRegistry.RecordFirmware | backend/app/services/controller_lifecycle.py:51-59 | the same for a reported capability |
| ControllerRegistry.ControllerRegistry.GreetController | backend/app/services/controller_lifecycle.py:179-200 | every answer of the first half of a bootstrap with its effect |
| ControllerRegistry.ControllerRegistry.RecheckGrant | backend/app/services/controller_lifecycle.py:210-223 | grants that no longer fit end before the answer |
| ControllerRegistry.ControllerRegistry.AnswerController | backend/app/services/controller_lifecycle.py:203-242 | the answer and its effect, or an error without effect |
| ControllerRegistry.ControllerRegistry.RenewConfirmation | backend/app/services/equipment.py:57-77 | the next revision in place |
| ControllerRegistry.ControllerRegistry.OperateAccess | backend/app/services/controller_lifecycle.py:287-325 | rotation, revocation and the first half of a release, or a rollback |
| ControllerRegistry.ControllerRegistry.CompleteRelease | backend/app/services/controller_lifecycle.py:327-343 | the hand-over only for the same generation, status and device |
| ControllerRegistry.ControllerRegistry.BeginReset | backend/app/services/controller_lifecycle.py:364-380 | the first half of a reset |
| ControllerRegistry.ControllerRegistry.CompleteReset | backend/app/services/controller_lifecycle.py:383-400 | the second half, which looks at generation and status only |
| ControllerRegistry.ControllerRegistry.QuarantineController | backend/app/api/v1/onboarding.py:270-278 | quarantine in place |
| JsonGuard.CheckDepth | backend/app/mqtt_payload.py:33-53 | the flat scan in a loop equals the scanner's fold |
| JsonGuard.ReadsValue | backend/app/mqtt_payload.py:33-53 | on every legal spelling of a value the scanner returns to its depth, and trips exactly when the nesting goes over the limit |
| JsonGuard.DepthGuardIsNesting | backend/app/mqtt_payload.py:33-53 | for every JSON tree and every legal spelling of it, with escaped quotes and brackets in strings, the guard accepts exactly if the nesting is at most 16 |
| JsonGuard.SpellingIsReadBack | backend/app/mqtt_payload.py:69-78 | every text of Unicode has a legal spelling in escapes, and reading it gives the text back |
| JsonGuard.PairsExactly | backend/app/mqtt_payload.py:69-78 | two escapes are one character exactly if they are a high and a low surrogate; a lone surrogate stays one |
| JsonGuard.CheckValues | backend/app/mqtt_payload.py:69-98 | the worklist terminates and accepts exactly if the tree has at most 2048 nodes, counting keys, and every string and number is valid |
| JsonGuard.ValidMeans | backend/app/mqtt_payload.py:81-98 | which values are valid, for each kind of node |
| JsonGuard.ValidStringMeans | backend/app/mqtt_payload.py:69-78 | a string is accepted exactly if it is short enough, without NUL, and can be encoded |
| JsonGuard.OrderDoesNotMatter | backend/app/mqtt_payload.py:82-93 | the verdict is the same for any visiting order |
| JsonGuard.UniqueObject | backend/app/mqtt_payload.py:60-66 | accepts exactly if no key repeats, and then maps every key to its value |

## Left out

- SQL, sessions, row locks and migrations: each locked transaction is one atomic step; the lost race on the unique request index is the repeat branch of `Create`, and preparing the equipment within a claim is a claim followed by the equipment steps.
- Protocol v1, the upgrade quarantine and rows restored from a backup: runs start from an empty table.
- The demo controller takes protocol version 2 only, as the code does; envelopes of version 3 are dropped there.
- The policy of a dispatch (`dispatch_rejection`), capability and permission checks, readiness, freshness and the stopped check are arbitrary inputs.
- Passwords, tokens, digests, audit entries, labels, mail and HTTP.
- Telemetry itself, system alarms, notifications and the heartbeat; only the counter that telemetry may raise is a move.
- Message ids, session ids, error messages and the telemetry envelope of the demo controller; a reply is its status, data and code.
- The order in which the demo outbox is sent and its batch of 100; any pending reply may be read at any time, and any reading may be abandoned.
- DemoState.DemoState.ChangeMode: the interruption and the update of the mode are two transactions of one call and one step here; the model assumes that nothing writes between them (a program accepted there would stay active with the pump stopped by a fault). Likewise each method of the demo state is one step, though a second process could write between its reading and its writing.
- ControllerRegistry.ControllerRegistry.GreetController: the status `retired` of a controller row, which nothing in the repository sets, is not modelled.
- `vfd.source.set` and `vfd.parameter.set` carry no payload in the model; like the code, the demo controller answers them by turning the running flag off.
- Deletion of devices, and with them of alarms and commands.
- Delivery.RunKeeps: does not model two backends with different clocks; the clock of the run never goes back, while `created_at` may lie before the moment of the commit.
- Worker.RunCycle: what others do to the table during a cycle is no part of the method; the rounds of the fairness results take it into account (`Worker.Round`).
- Zones.CivilUtcIsEarliest: a zone is a finite table of transitions whose local times are orderly, searched as the standard library does for the first of two readings; the rule for years beyond the table is not modelled.
- The calendar (month, weekday, day of month) is an arbitrary reading of the day number; where it matters its months are 1 to 12.
- Schedules.CheckCoherent: the limit of 50 years, the name and the two-decimal rule of frequencies are left out.
- Overlap.WindowIsExact: assumes that no date of the rule returns after the horizon, which is also necessary (`OverlapLimits.ExactnessIsDateOrder`), and that the clock of the zone is orderly or at least its date never steps back.
- Overlap.FirstOverlap: the same assumptions for both zones, and offsets strictly inside 24 hours.
- Overlap.SelfOverlapIsExact: the same assumptions as for the window.
- Overlap.NextRunIsEarliest: assumes a clock that is orderly, or whose date never steps back.
- OverlapLimits.ExactnessIsDateOrder: is about orderly zones whose offsets and changes are whole minutes from the end of 1999 on.
- The context of an alarm is a map of numbers; which values the rule engine writes into it is not modelled, nor which incident `already_resolved` names.
- AlarmRules.EngineMeetsSpecification: the rules of a device stay the same during a run, and nobody else raises or resolves their keys.
- AccessRuns.RunKeeps: follows one controller; a request whose answer timed out takes effect at once or never, not later.
- Hashing of a manifest is injective: a new configuration has a hash that no other has.
- Bindings.JointRunKeeps: joins one controller's records with the command table; devices of other controllers may be bound in any way.
- Equipment modules are the set of usable drives; installations, passports, profiles and the limit of 32 modules are one `acceptable` flag.
- The settings of the real drive, the firmware of the controller and the browser client.
