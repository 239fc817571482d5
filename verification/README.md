# Home security system: a verified model

A door module reports its state to a hub over UDP and obeys commands. The hub keeps what it
hears in four bounded tables, relays commands and answers between doors and web clients, and
raises alerts. A Node bridge connects the web clients. This project models that protocol,
with the lock, motor and queues it rests on, and proves what holds over whole runs.

`dafny verify dfyconfig.toml` checks everything.

## How it is organised

| file | what it is |
|---|---|
| Sequences.dfy | what the solver has to be told about sequences |
| Text.dfy | tokenising, printing, decimal numbers, fixed-size buffers |
| Pending.dfy | the hub's 128 waiting client commands |
| HubModel.dfy | what a datagram, the end of a handler, and a sweep do to each table |
| HubLaws.dfy | what a line and a sweep come to, said word by word and read back from outside |
| HubServer.dfy, HubThread.dfy | the hub as it runs: arrays and loops, tied to HubModel |
| HubRuns.dfy | what holds of every run of the hub |
| HistoryRing.dfy | the 256-slot event ring |
| SendCommand.dfy | calls of hub_udp_send_command, interleaved with the hub and each other |
| Witnesses.dfy | runs from a fresh hub in which the failures below happen |
| DoorReporter.dfy | the door's change detector, heartbeat and lines |
| DoorHub.dfy, Replica.dfy | the hub reads what the door prints; its row follows the door |
| Liveness.dfy, LivenessBound.dfy | when a door is never declared offline, and that the bound is exact |
| Stepper.dfy, LockController.dfy | the motor, and the lock commands and their answers |
| DoorModule.dfy | the door module as a whole: command in, lock acts, report and FEEDBACK out |
| Bridge.dfy | the Node bridge's pending map and timers |
| RoundTrip.dfy | one command from the bridge to the door and back |
| LedQueue.dfy, WebhookQueue.dfy | the two worker queues |

Code that updates state in place is a class whose methods keep the original's loops and
branches; each method's contract equates the new state with a function of the old one.
Whole runs are folds of those functions over arbitrary input lists, so a run theorem
quantifies over every order of datagrams, sweeps, timeouts, failures and clock readings. A
step that cannot happen in a state changes nothing there. The hub's receiver thread handles
a datagram in two steps, split where the mutex is released to send; other threads may step
in between. Logs of what was sent, recorded and announced stand for the network.

## What turned out false, and exactly when

- Rows and endpoints are unique per module only while ids fit their 16-byte fields. A longer
  id is stored cut off and never found again (`HubRuns.DuplicateRowsExactly`,
  `HubRuns.DuplicateEndpointsExactly`), as `Witnesses.LongIdTwice` shows from a fresh hub; the
  table theorems therefore ask for short ids.
- Relays are conserved for every command id but 0, the mark of a free slot: a FEEDBACK 0 is
  relayed whenever a slot, free or not, has id 0 and still holds the module's name
  (`HubRuns.ZeroIdRelaysExactly`); `Witnesses.ZeroIsRelayed` is such a run. Even then it only
  reaches a client that sent that module some command (`HubRuns.RelaysGoToAskers`).
- A call of hub_udp_send_command can be satisfied by an old FEEDBACK, because any id not
  below its own will do (`SendCommand.StaleAckExactly`, and from a fresh hub
  `Witnesses.StaleSuccess`). Before the call one can tell whether it is safe from that
  (`SendCommand.FreshExactly`).
- Web clients and hub_udp_send_command count their ids from 1 without knowing of each other,
  and the hub does not remember what it forwarded. A client can be relayed the answer to one
  of the hub's own commands, although its own was never forwarded
  (`RoundTrip.AnsweredUnforwardedExactly`, and from a fresh hub `Witnesses.AnswerToAnother`).
- A STATUS sent with hub_udp_send_command is never acknowledged, because the door answers it
  with its state (`RoundTrip.StatusIsNeverAcknowledged`, `RoundTrip.CallRoundTrip`); and one
  sent with an empty target, as app/src/http_api.c:245 does when none is given, is ignored by
  the door (`RoundTrip.NoTargetIsIgnored`).
- get-door-info can call back twice (`Bridge.InfoIsToldTwiceExactly`, `Bridge.InfoIsToldTwice`).
- A FEEDBACK of LOCK or UNLOCK does not say that the door obeyed. When it did is
  `LockController.LockIsObeyedExactly` and `LockController.UnlockIsObeyedExactly`.
- UNLOCK can claim success without moving the motor, after a rotation that stopped short
  (`LockController.UnlocksWithoutMovingExactly`, from the start in
  `LockController.UnlocksWithoutMoving`).
- hal/include/hal/hub_udp.h:65 promises the most recent events; the code copies from the
  oldest retained one, so only readers with room for all, or for none, are served as
  promised (`HistoryRing.NewestExactly`, and from a fresh hub `Witnesses.NewestIsMissed`).
- hal/include/hal/hub_udp.h:69 says a command returns true on send success; it returns true
  exactly on a FEEDBACK that satisfies it (`SendCommand.SucceedsExactly`), and may return
  false after three successful sends (`Witnesses.SentInVain`).
- REFERENCE.md:53 describes a debounce; the code announces every change of its readings
  (`DoorReporter.EveryChangeIsAnnounced`).

## Model

| member | source | states |
|---|---|---|
| Text.TokensOfLine | hal/src/hub_udp.c:353-357 | splitting a printed line gives back exactly the words printed, for strtok_r's blanks and for JavaScript's |
| Text.CTokensOfLine | hal/src/door_udp.c:116-125 | the same for words that contain no blank of either kind, read by the C programs |
| Text.ReceivedLine | hal/src/hub_udp.c:552-564 | a line of at most 255 characters without NUL arrives unchanged |
| Text.NumberRoundTrip | hal/src/hub_udp.c:450-451 | atoi and parseInt both give back any integer printed with %d |
| Text.SplitsAtBlank | hal/src/hub_udp.c:353-357 | any blank, wherever it stands in a text, separates the words before it from those after it |
| Text.DecimalPlaces | hal/src/hub_udp.c:457-458 | a printed number has the digit of each power of ten in its place, and no leading zero |
| Text.NumberStops | hal/src/hub_udp.c:450-451 | atoi and parseInt read up to the first character that is no digit |
| Pending.EvictsOnlyTheOldest | hal/src/hub_udp.c:127-139 | a live command is overwritten if and only if no slot is free and it is the first of those issued earliest |
| Pending.TakesFirstFree | hal/src/hub_udp.c:127-139 | while any slot is free, the first free one is taken |
| Pending.Survives | hal/src/hub_udp.c:124-163 | a command keeps its slot while later registrations and live commands no older than it together fit the 128 slots |
| Pending.SurvivesNext127 | hal/src/hub_udp.c:124-146 | a command newer than all others outlives the next 127 registrations, whatever else is freed |
| Pending.The128thEvicts | hal/src/hub_udp.c:124-146 | once 127 later commands fill the other slots, one more registration overwrites it |
| HubModel.RowAfter | hal/src/hub_udp.c:377-505 | a line never changes its row's identity or offline flag; every line but COMMAND sets the address; only a complete FEEDBACK changes the recorded feedback |
| HubServer.Server.constructor | hal/src/hub_udp.c:660-667 | the server starts with empty tables and command id 1 |
| HubLaws.LineIsRecorded | hal/src/hub_udp.c:382-384 | the first event a tracked line adds reads as its module and type; a complete FEEDBACK adds two events, every other line one |
| HubLaws.FeedbackIsRecorded | hal/src/hub_udp.c:457-462 | the second event of a FEEDBACK reads as FEEDBACK, its id, target and action |
| HubLaws.UntrackedIsDropped | hal/src/hub_udp.c:353-374 | a module without a row leaves one event saying so and, unless it is a COMMAND, its address; nothing else changes |
| HubLaws.NewRowIsBlank | hal/src/hub_udp.c:110-118 | a new row has everything false, zero and empty |
| HubLaws.LineChanges | hal/src/hub_udp.c:380-505 | which kinds of line change which times, lines and booleans of the row |
| HubLaws.DisplayLineReads | hal/src/hub_udp.c:387-408 | the line kept for display reads as the heartbeat's words, or as module and type without any |
| HubLaws.EventSetsBits | hal/src/hub_udp.c:409-445 | each boolean is set by one event, cleared by another and touched by no third |
| HubLaws.EventAlerts | hal/src/hub_udp.c:427-441 | which events raise an alert, and that it says what they said |
| HubLaws.StateTokenMeans | hal/src/hub_udp.c:182-226 | a state token with a comma, word by word, whatever the words |
| HubLaws.LoneFieldMeans | hal/src/hub_udp.c:202-226 | the same without a comma, and without '=' |
| HubLaws.TokenTouches | hal/src/hub_udp.c:390-394 | a token speaks of the door it begins with and of no other |
| HubLaws.SweepChanges | hal/src/hub_udp.c:309-332 | what a sweep changes in a row: the flag where it was wrong, and the offline time with it |
| HubLaws.SweepSays | hal/src/hub_udp.c:319-339 | the event and the alert of a row that changes, word by word, and none for any other |
| HubLaws.SweepInOrder | hal/src/hub_udp.c:308-340 | alerts and events of a sweep go by rising row, for exactly the rows that change |
| HubServer.Server.FindOrCreateDoor | hal/src/hub_udp.c:102-120 | returns the module's row, or blanks the first unused one and gives it the module's stored id, or reports a full table |
| HubServer.Server.RegisterClientCommand | hal/src/hub_udp.c:124-146 | the one-pass slot search picks the slot of the specification, and only that slot changes |
| HubServer.Server.GetAndClearClientCmd | hal/src/hub_udp.c:149-163 | returns the client of the first matching slot and frees it, or changes nothing |
| HubServer.Server.AddHistory | hal/src/hub_udp.c:167-178 | appends one event with id and line cut to their fields |
| HubServer.Server.FindEndpointIndex | hal/src/hub_udp.c:230-238 | finds the first endpoint of the module |
| HubServer.Server.UpdateEndpointTable | hal/src/hub_udp.c:240-258 | records the module's latest address, in its entry or a new one, unless all 16 are taken |
| HubServer.Server.AppendToken | hal/src/hub_udp.c:395-399 | the bounded appends keep exactly the first 255 characters of the tokens joined by blanks |
| HubServer.Server.ParseTokens | hal/src/hub_udp.c:387-400 | the token loop folds every D0= and D1= token into the row's booleans and keeps the tokens for display |
| HubServer.Server.HandleHeartbeat | hal/src/hub_udp.c:386-408 | sets booleans, time and display line of its row and nothing else |
| HubServer.Server.HandleEvent | hal/src/hub_udp.c:409-445 | sets the one boolean the event names, raises one alert for it, and always notes the time |
| HubServer.Server.HandleFeedback | hal/src/hub_udp.c:446-471 | records a complete feedback, frees the waiting command and makes its relay due |
| HubServer.Server.HandleCommand | hal/src/hub_udp.c:486-500 | registers a complete command for its sender and makes the raw line due |
| HubServer.Server.HandleLine | hal/src/hub_udp.c:347-508 | one datagram takes the arrays, ring and log to the specified hub state |
| HubServer.Server.SendDue | hal/src/hub_udp.c:266-299 | after the release, the due datagram goes out to the client or to the module's endpoint, or is lost |
| HubServer.Server.SweepOne | hal/src/hub_udp.c:309-340 | one row of the sweep: flag, time, event and alert |
| HubServer.Server.CheckOfflineModules | hal/src/hub_udp.c:303-343 | the sweep loop does to every row what the specification says, with alerts and events in row order |
| HubServer.Server.GetStatus | hal/src/hub_udp.c:699-716 | returns the module's row, or that there is none |
| HubServer.Server.TakeCommandId | hal/src/hub_udp.c:747-764 | takes one id and the module's address if its row has one, else changes nothing |
| HubThread.DrainSocket | hal/src/hub_udp.c:551-573 | the receive loop goes through a run whose receiver steps are exactly its packets in order, whatever other threads do whenever it is not in the mutex |
| HubThread.PacketsInOrder | hal/src/hub_udp.c:551-573 | the receiver's steps are, two by two, the handling and the release of each packet in turn |
| HubThread.UdpThread | hal/src/hub_udp.c:512-579 | so does the whole thread: packets in order, then a sweep, turn after turn, with calls of other threads anywhere in between |
| HubThread.ServeFromStart | hal/src/hub_udp.c:583-686 | a hub started afresh, after any turns and any concurrent calls: alerts alternate, tables agree for short ids, relays go only to clients that asked |
| HubRuns.LineKeepsRouted | hal/src/hub_udp.c:363-380 | one line with a short id keeps the routing invariant |
| HubRuns.RoutingTablesAgree | hal/src/hub_udp.c:102-120 | in every run with short ids, at every mutex release: known rows are a prefix, rows and endpoints are unique, a module in both tables has one address, an endpoint without row means 8 rows used, an addressed row without endpoint means 16 endpoints used |
| HubRuns.DuplicateRowsExactly | hal/src/hub_udp.c:104-117 | a line duplicates a row's id if and only if its id is too long, the stored part names a row, and an unused row exists |
| HubRuns.DuplicateEndpointsExactly | hal/src/hub_udp.c:245-255 | the same for endpoints |
| HubRuns.OtherRowsUntouched | hal/src/hub_udp.c:367-380 | a line for one module leaves every other known row as it was |
| HubRuns.RelaysAreConserved | hal/src/hub_udp.c:465-494 | in every run, for every module, nonzero id and group of clients: relays to the group are at most its accepted commands, and each relay goes to a client that sent such a command |
| HubRuns.RunConserves | hal/src/hub_udp.c:148-163 | the invariant behind it: relayed plus due plus waiting never exceeds accepted |
| HubRuns.ZeroIdRelaysExactly | hal/src/hub_udp.c:149-161 | a FEEDBACK 0 is relayed if and only if some slot with id 0 holds the module's name |
| HubRuns.RelaysGoToAskers | hal/src/hub_udp.c:149-163 | in every run, id 0 included, each relay goes to an address from which some command for that module was accepted |
| HubRuns.AnsweredCommandRelaysZero | hal/src/hub_udp.c:149-161 | every answered command leaves such a slot behind |
| HubRuns.AlertsAlternate | hal/src/hub_udp.c:303-343 | in every run, for every row, OFFLINE and ONLINE alerts strictly alternate from OFFLINE and the flag says which was last |
| HubRuns.ModuleAlertsAlternate | hal/src/hub_udp.c:303-343 | the same per module when ids are short |
| HubRuns.SweepSetsFlags | hal/src/hub_udp.c:311-332 | after a sweep a known row is offline if and only if its last heartbeat is more than 10000 ms old; nothing else of it changes but the offline time |
| HubRuns.RunAppliesOps | hal/src/hub_udp.c:465-494 | over any run the pending table changes by the registrations and clearings of its COMMANDs and FEEDBACKs, in order, and in no other way |
| HubRuns.HistoryInTimeOrder | hal/src/hub_udp.c:167-178 | if the clock never runs backwards, the history of every run is in time order, sweep events included |
| HistoryRing.Ring.constructor | hal/src/hub_udp.c:662-664 | the ring starts empty |
| HistoryRing.Ring.Add | hal/src/hub_udp.c:167-178 | after any number of additions the ring holds exactly the last 256 events, or all if fewer |
| HistoryRing.Ring.Get | hal/src/hub_udp.c:718-735 | copies min(max, retained) events, the i-th being the i-th retained one, and leaves the rest of the buffer alone |
| HistoryRing.NewestExactly | hal/src/hub_udp.c:718-735 | of pairwise different events, a reader gets the newest that fit if and only if it asks for none or for at least all that are retained; every other reader misses the very newest |
| HistoryRing.ReadsFromOldest | hal/src/hub_udp.c:718-735 | the i-th event read is the i-th after the oldest of the last 256 |
| SendCommand.SendLoop | hal/src/hub_udp.c:766-826 | the retry and wait loops end within three attempts; what they meet, try by try and look by look, is exactly what sockets, sends, row and timeouts hold for them; one datagram for each successful try, all the same line; true if and only if a look met a satisfying feedback |
| SendCommand.WorldDecides | hal/src/hub_udp.c:770-821 | what a call meets is determined by its surroundings: two scripts of it agree, and are equal if the call is over |
| SendCommand.StepBurnsFuel | hal/src/hub_udp.c:770-821 | every change of a call uses up one of its at most six steps, and it is over exactly when none is left |
| SendCommand.LookExactly | hal/src/hub_udp.c:796-821 | when a look goes on waiting, succeeds, or ends the attempt; a newer feedback for something else ends it at once |
| SendCommand.AlwaysMoves | hal/src/hub_udp.c:770-821 | a call that is not over changes at its next try or expired wait |
| SendCommand.CallsEnd | hal/src/hub_udp.c:770-826 | in every interleaving a call changes state at most six times |
| SendCommand.IdsGrow | hal/src/hub_udp.c:763 | ids of different calls are distinct and grow in issue order |
| SendCommand.RetriesAreBounded | hal/src/hub_udp.c:762-781 | each call transmits at most three commands, all with its own id, line and destination |
| SendCommand.HubPart | hal/src/hub_udp.c:44-46 | in the combined system the hub goes through a run of HubRuns whose receiver steps are exactly the system's, in order |
| SendCommand.RoutingWithCalls | hal/src/hub_udp.c:363-380 | with any calls under way, the routing tables agree in runs with short ids |
| SendCommand.AlertsWithCalls | hal/src/hub_udp.c:303-343 | with any calls under way, alerts alternate per row, and per module if ids are short |
| SendCommand.HistoryWithCalls | hal/src/hub_udp.c:167-178 | with any calls under way, the history is in time order if the receiver's clock never runs backwards |
| SendCommand.RelaysWithCalls | hal/src/hub_udp.c:465-494 | with any calls under way, relays are conserved and go to clients that asked |
| SendCommand.RunMirrors | hal/src/hub_udp.c:452-458 | every row carries the latest feedback recorded for it since it was created |
| SendCommand.SuccessIsExplained | hal/src/hub_udp.c:796-817 | a call that returned true met a feedback of its own row, target and action, for its own or a later id, recorded after it took its id; or its row satisfied it already then |
| SendCommand.StaleAckExactly | hal/src/hub_udp.c:796-810 | in every run, a waiting call's look succeeds if and only if the latest feedback recorded for its row satisfies it; that success is fresh if and only if one was recorded since the call began, and without one the call succeeds if and only if its row satisfied it when it began |
| SendCommand.StaleAtFirstLook | hal/src/hub_udp.c:804-810 | the same for the first look right after the first command got out, in any state |
| SendCommand.FreshExactly | hal/src/hub_udp.c:747-817 | in every run, before a call: every success of it will be by a feedback recorded after it began, whatever happens, if and only if its module's row does not satisfy it now |
| SendCommand.SucceedsExactly | hal/src/hub_udp.c:770-826 | whatever was sent, a call returns true if and only if at some look it met a feedback of its target and action for its own or a later id |
| Witnesses.LongIdTwice | hal/src/hub_udp.c:102-117 | from a fresh hub, two HELLOs of a module with a too long id leave two rows and two endpoints of one id |
| Witnesses.StaleSuccess | hal/src/hub_udp.c:804-810 | from a fresh hub, a feedback that arrived before the call began makes it return true |
| Witnesses.ZeroIsRelayed | hal/src/hub_udp.c:149-161 | from a fresh hub, one command and its answer, and then a FEEDBACK 0 is relayed to the same client |
| Witnesses.SentInVain | hal/src/hub_udp.c:770-826 | from a fresh hub, a call whose three commands all get out returns false |
| Witnesses.NewestIsMissed | hal/src/hub_udp.c:718-735 | from a fresh hub, after two HELLOs a reader of one event does not get the newer |
| Witnesses.AnswerToAnother | hal/src/hub_udp.c:446-500 | from a fresh system, a client's command 1 is not forwarded, the hub's own command 1 is answered, and the client is relayed that answer |
| SendCommand.DisciplinedCallsAreAhead | hal/src/hub_udp.c:762-764 | if feedback ids stay below the next id to be issued, everything recorded before a call began has a smaller id |
| SendCommand.AcknowledgementsAreFresh | hal/src/hub_udp.c:796-817 | in such runs every success is by a feedback recorded after the call took its id |
| DoorReporter.Reporter.Init | hal/src/door_udp.c:211-307 | a new session forgets the previous state, defaults the period and sends HELLO if the network is up; it succeeds if the command thread starts too |
| DoorReporter.Reporter.Close | hal/src/door_udp.c:389-404 | closing forgets the previous state and sends nothing |
| DoorReporter.Reporter.Update | hal/src/door_udp.c:309-387 | new state and lines sent are those of the specification, in order |
| DoorReporter.Reporter.SendFeedback | hal/src/door_udp.c:60-67 | prints one FEEDBACK line if the socket is open |
| DoorReporter.Reporter.ReceiveCommand | hal/src/door_udp.c:111-141 | only a complete COMMAND for this module is acted on |
| DoorReporter.OthersAreIgnored | hal/src/door_udp.c:116-141 | of printed lines exactly the whole COMMANDs for this module are obeyed |
| DoorReporter.UpdateInOrder | hal/src/door_udp.c:317-381 | the messages of an update come in order: door, lock, heartbeat, each exactly when due |
| DoorReporter.EventTexts | hal/src/door_udp.c:347-362 | HELLO and EVENT lines, character by character |
| DoorReporter.HeartbeatText | hal/src/door_udp.c:370-377 | HEARTBEAT lines, character by character |
| DoorReporter.OneUpdateTells | hal/src/door_udp.c:345-386 | the messages of one update bring an up-to-date listener to the new state |
| DoorReporter.EventLogIsExact | hal/src/door_udp.c:317-386 | the EVENT lines of a session, folded over the first update's state, give the last update's state |
| DoorReporter.EventsAlternate | hal/src/door_udp.c:347-362 | DOOR events alternate over a session, and so do LOCK events |
| DoorReporter.EveryChangeIsAnnounced | hal/src/door_udp.c:345-362 | the EVENT lines of a session announce exactly the changes from one reading to the next, whatever the times between them |
| DoorReporter.HeartbeatRate | hal/src/door_udp.c:365-380 | with a clock that does not run backwards, all heartbeats but the first fit one period each into the time since the first update |
| DoorHub.MsgIsRead | hal/src/door_udp.c:333-376 | every line a door prints is split by the hub into the intended words |
| DoorHub.StateTokenParses | hal/src/hub_udp.c:182-226 | a printed D0= or D1= token parses to the printed pair, whatever the booleans were |
| DoorHub.HeartbeatHeals | hal/src/hub_udp.c:386-400 | a printed heartbeat sets all four booleans to (open, locked, open, locked) whatever they were |
| DoorHub.RowIsTold | hal/src/hub_udp.c:386-445 | handling a printed line changes the row exactly as the message says, besides address and display line |
| Replica.Delivered | hal/src/hub_udp.c:367-445 | a handled door line gives the module a row if it can have one, with the told booleans and heartbeat time |
| Replica.ForeignStep | hal/src/hub_udp.c:347-508 | no other line, COMMAND, FEEDBACK or sweep touches the booleans or heartbeat time of the module's row |
| Replica.ReplicaInvariant | hal/src/door_udp.c:309-387 | what the hub knows, updated by what is in flight, is always the door's saved state |
| Replica.ReplicaAgrees | hal/src/door_udp.c:309-387 | once all lines of the door are handled, the row's d0_open and d1_locked equal its saved state, whatever interleaves |
| Replica.HandledLineHasRow | hal/src/hub_udp.c:102-120 | after a handled line the module has a row if and only if its own or an unused row existed |
| Liveness.LivenessInvariant | hal/src/door_udp.c:365-380 | heartbeats heard and in flight are never further apart than period plus gap, and the row is as recent as the last one heard |
| Liveness.NeverDeclaredOffline | hal/src/hub_udp.c:303-343 | with updates at most gap apart, heartbeats handled in order within delay, and period + gap + delay at most 10001, no OFFLINE alert follows the first handled heartbeat |
| LivenessBound.BoundIsTight | hal/src/hub_udp.c:311-327 | for any period, gap and delay beyond that bound there is an on-time run with such an alert |
| Stepper.Motor.Init | hal/src/StepperMotor.c:19-42 | the count is 0 once the pins are exported, even if setting them fails |
| Stepper.Motor.ResetPosition | hal/src/StepperMotor.c:97-104 | the count is 0 exactly if the pins could be cleared |
| Stepper.Motor.Rotate | hal/src/StepperMotor.c:44-88 | advances by the completed steps modulo 4096, with the patterns in sequence, and succeeds if and only if all steps were taken |
| Stepper.Motor.GetPosition | hal/src/StepperMotor.c:90-95 | reads whole degrees, rounded down |
| Stepper.RotationLands | hal/src/StepperMotor.c:50-80 | a successful rotation ends at the rounded target, wherever it began |
| Stepper.NoDrift | hal/src/StepperMotor.c:44-88 | after any rotations, cut short or not, the position is start plus completed steps, and the target itself if the last succeeded |
| Stepper.ReadBack | hal/src/StepperMotor.c:50-95 | a target reads back as itself or one less, exactly when the rounding says; 360 reads 0; 0 and 180 are exact |
| Stepper.LockedBand | hal/src/StepperMotor.c:90-95 | the motor reads 180 exactly on steps 2048 to 2059, and 0 exactly on 0 to 11 |
| Stepper.CoilPhase | hal/src/StepperMotor.c:57-76 | the coil pattern matches the position at every step of a rotation if and only if it starts on a multiple of 8 |
| LockController.Controller.AvgDistanceSample | app/src/doorMod.c:189-206 | the loop computes the specified average |
| LockController.AverageIsBetween | app/src/doorMod.c:194-205 | the average lies between the valid samples |
| LockController.AverageOrError | app/src/doorMod.c:201-205 | it is -1 if no sample is valid, and positive otherwise |
| LockController.AverageExactly | app/src/doorMod.c:194-205 | the average is the whole number of times the count of valid samples goes into their total |
| LockController.TotalsAdd | app/src/doorMod.c:194-200 | count and total are additive; an error adds nothing, a reading adds one and itself |
| LockController.AverageIsOrderless | app/src/doorMod.c:194-205 | the order of the samples does not matter |
| LockController.Controller.ReportState | app/src/doorMod.c:28-57 | says what door_udp_update is given and remembers the state, unless the sensor fails |
| LockController.Controller.RunLock | app/src/doorMod.c:210-244 | goes through the specified outcome: position, state, LEDs, report |
| LockController.Controller.RunUnlock | app/src/doorMod.c:247-298 | likewise |
| LockController.Controller.RunStatus | app/src/doorMod.c:301-331 | likewise |
| LockController.Controller.HandleCommand | app/src/door_udp_handler.c:7-46 | performs the action and answers with the specified text |
| LockController.CommandIsSafe | app/src/doorMod.c:210-298 | from rest and without pin failure: at rest again, 0 is left if and only if LOCK met a valid average below 10, 2048 if and only if UNLOCK, and coils match positions |
| LockController.RunsAreSafe | app/src/doorMod.c:210-331 | so in every run of commands |
| LockController.StatusLockedExactly | app/src/door_udp_handler.c:23-38 | in every state STATUS is answered STATUS_LOCKED if and only if the motor is on steps 2048 to 2059 |
| LockController.StatusExactly | app/src/doorMod.c:301-331 | STATUS in full: LOCKED on steps 2048 to 2059, else UNKNOWN without a reading, UNLOCKED below 10, OPEN from 10 on |
| LockController.StatusIsRemembered | app/src/doorMod.c:301-331 | STATUS moves nothing, and remembers the state it answers whenever it reports |
| LockController.CommandsReport | app/src/doorMod.c:28-57 | every command ends with one report unless the closing reading fails: open from 10 on, locked by where the motor stands; an unknown action does nothing and is answered with itself |
| LockController.LockShows | app/src/doorMod.c:210-244 | the light LOCK shows and the state it leaves, in every case |
| LockController.UnlockShows | app/src/doorMod.c:247-298 | the same for UNLOCK |
| LockController.AnswerAgreesWithReport | app/src/doorMod.c:301-331 | what STATUS answers and what it reports to the hub agree on the lock |
| LockController.LockIsObeyedExactly | app/src/doorMod.c:210-244 | LOCK is answered LOCK in every state and whatever fails; the motor then reads 180 if and only if it did before, or the averaged sample was valid and below 10 and every step succeeded |
| LockController.UnlockIsObeyedExactly | app/src/doorMod.c:247-298 | UNLOCK is answered UNLOCK; the motor then reads 0 if and only if it did before, or the door was last known or is read as locked and every step succeeded |
| LockController.UnlocksWithoutMoving | app/src/doorMod.c:248-287 | from the start, a LOCK that stops after 1000 steps and an UNLOCK that then claims success at 87 degrees |
| LockController.UnlocksWithoutMovingExactly | app/src/doorMod.c:248-287 | when UNLOCK reports UNLOCKED without moving the motor |
| DoorModule.OnDatagram | app/src/door_udp_handler.c:7-46 | for every datagram: the lines sent are the report's and then the FEEDBACK, and lock and reporter end in the specified states |
| DoorModule.ReportPrecedesAnswer | app/src/doorMod.c:240-241 | before the FEEDBACK is sent, the report has brought an up-to-date listener up to date again; after a STATUS it knows the lock as the FEEDBACK states it |
| DoorModule.ReportTells | app/src/doorMod.c:28-57 | what a listener knows after the report of a command: open from 10 on, locked on steps 2048 to 2059 |
| Bridge.Server.SendCommand | gui/lib/door_server.js:175-185 | takes the next id, fills in defaults, prints the COMMAND line |
| Bridge.DefaultsAreFilledIn | gui/lib/door_server.js:175-182 | a missing module reads as D1, a missing target as D0, and nothing else is changed |
| Bridge.Server.GetDoorInfo | gui/lib/door_server.js:240-295 | registers entry and timer before sending |
| Bridge.Server.OnSent | gui/lib/door_server.js:185-212 | the send callback registers the command or reports the error |
| Bridge.Server.OnMessage | gui/lib/door_server.js:41-83 | a FEEDBACK answers the waiting command with its id, and removes entry and timer |
| Bridge.FeedbackExactly | gui/lib/door_server.js:41-64 | what a line answers: nothing unless it is a FEEDBACK with a number that waits; its action is all its words from the fifth on |
| Bridge.Server.OnTimeout | gui/lib/door_server.js:196-208 | a timer removes its entry and reports the failure |
| Bridge.BooksBalance | gui/lib/door_server.js:64-83 | in every run each direct command is being sent, waiting or answered, exactly one of these; waiting commands and live timers are the same; all are issued |
| Bridge.OneOutcomePerCommand | gui/lib/door_server.js:175-213 | in every interleaving a direct requester is told at most one thing, and exactly one once its command is neither being sent nor waiting |
| Bridge.DirectIsToldExactly | gui/lib/door_server.js:64-213 | a direct requester is told nothing before its send callback, a failure if sending failed, and else one thing at most: what the first feedback with its id after the callback says, or a failure if its timer comes first |
| Bridge.FirstAnswerSettles | gui/lib/door_server.js:64-80 | an entry, get-door-info included, leaves the map on its first feedback or timeout and never returns |
| Bridge.InfoIsToldTwiceExactly | gui/lib/door_server.js:249-303 | get-door-info calls back twice if and only if its send error comes after it was answered or timed out |
| Bridge.InfoIsToldTwice | gui/lib/door_server.js:249-303 | a run from the start in which get-door-info calls back twice, with no feedback at all |
| RoundTrip.CommandIsRead | gui/lib/door_server.js:182 | the bridge's COMMAND text is read by hub and door as it was meant |
| RoundTrip.FeedbackIsRead | hal/src/door_udp.c:60-67 | the door's FEEDBACK line is relayed unchanged and read by the bridge as it was meant |
| RoundTrip.CommandReachesDoor | hal/src/hub_udp.c:486-500 | the hub forwards the text verbatim to the module's address and the door reads the request from it |
| RoundTrip.CommandKeepsWaiting | hal/src/hub_udp.c:124-163 | while undisturbed the command, forwarded or not, keeps its slot and stays the only one of its kind |
| RoundTrip.AnsweredUnforwardedExactly | hal/src/hub_udp.c:446-500 | an undisturbed command is relayed the first feedback with its id, whatever that answers; nothing was forwarded for it if and only if the network failed or the module's endpoint was unknown |
| RoundTrip.DoorAnswers | app/src/door_udp_handler.c:7-46 | what the door sends for the forwarded text ends with its FEEDBACK |
| RoundTrip.AnswerComesBack | hal/src/hub_udp.c:446-471 | the answer is relayed to the client that asked, and its requester is told module, id, target and the door's own action text |
| RoundTrip.CommandRoundTrip | gui/lib/door_server.js:182 | the whole way, for every lock state and every undisturbed run in between: the last line the door sends for the forwarded text is relayed to the requester's bridge and tells it module, id, target and the door's own action text |
| RoundTrip.CallIsRead | hal/src/hub_udp.c:766-768 | the line of the hub's own call reads as module, COMMAND, id, target and action, and the door takes it as that request |
| RoundTrip.CallRoundTrip | hal/src/hub_udp.c:739-817 | the hub's own call all the way round: what its row carries after the door's answer satisfies it if and only if the door answered with the action asked for |
| RoundTrip.StatusIsNeverAcknowledged | app/src/door_udp_handler.c:17-44 | the door answers an action with itself if and only if it is not STATUS |
| RoundTrip.NoTargetIsIgnored | app/src/http_api.c:245 | a call with an empty target prints a line the door ignores |
| LedQueue.Queue.Push | hal/src/led_worker.c:40-46 | appends, or refuses with 31 tasks queued |
| LedQueue.Queue.Pop | hal/src/led_worker.c:48-53 | removes the oldest task |
| LedQueue.Queue.Enqueue | hal/src/led_worker.c:128-138 | the queue becomes the last 31 of itself and the new task; the second push never fails |
| LedQueue.Queue.WorkerTurn | hal/src/led_worker.c:55-71 | one turn of the worker in any state: executes the oldest task, or waits, or ends when told to and nothing is left |
| LedQueue.Queue.WorkOff | hal/src/led_worker.c:55-104 | after shutdown is asked for, all queued tasks are executed in order |
| LedQueue.Play | hal/src/led_worker.c:40-71 | driven by any interleaving of enqueues and turns, the ring ends in the state of that run |
| LedQueue.RunsAccount | hal/src/led_worker.c:40-71 | in every run each task was executed, dropped or is queued, exactly one of these, and each in order; the tasks handed over are those the numbers name |
| LedQueue.DropsOnlyWhenFull | hal/src/led_worker.c:131-135 | a task is dropped if and only if 31 are queued, and exactly its 31 juniors are queued then |
| WebhookQueue.Queue.Enqueue | hal/src/system_webhook.c:22-35 | appends to the linked list and keeps head, tail and links consistent |
| WebhookQueue.Queue.Dequeue | hal/src/system_webhook.c:37-55 | removes the first message, or says whether to wait or end |
| WebhookQueue.Queue.WorkOne | hal/src/system_webhook.c:37-69 | one turn of the worker in any state: hands over the first message, or waits, or ends |
| WebhookQueue.Queue.WorkOff | hal/src/system_webhook.c:57-69 | after running is cleared, hands over everything queued in order |
| WebhookQueue.Queue.Discard | hal/src/system_webhook.c:107-116 | the final drain empties the list and sends nothing |
| WebhookQueue.Queue.AskFor | hal/src/system_webhook.c:125-133 | the first critical section: admitted exactly while running |
| WebhookQueue.Queue.EnterFor | hal/src/system_webhook.c:134 | the second: an admitted message is enqueued, whatever happened in between |
| WebhookQueue.Queue.Send | hal/src/system_webhook.c:125-135 | both in a row: enqueues only while running |
| WebhookQueue.Queue.StopRunning | hal/src/system_webhook.c:96-102 | clears running and fixes which messages are due |
| WebhookQueue.Queue.DrainRest | hal/src/system_webhook.c:104-116 | after the join, whatever is left is discarded |
| WebhookQueue.Play | hal/src/system_webhook.c:22-135 | driven by any interleaving of senders, worker and shutdown, the list ends in the state of that run |
| WebhookQueue.Queue.Shutdown | hal/src/system_webhook.c:96-116 | with no one else enqueuing, sends all that was queued and leaves nothing |
| WebhookQueue.EverythingDueIsSent | hal/src/system_webhook.c:22-116 | in every interleaving what was sent is a prefix of what was enqueued, and once the worker ends it contains all that was enqueued before shutdown cleared running |
| WebhookQueue.ClosedToNewcomers | hal/src/system_webhook.c:96-134 | after shutdown cleared running, only callers admitted before can still enqueue |
| WebhookQueue.OnlyLatecomersAreLost | hal/src/system_webhook.c:107-135 | a message is lost exactly when it is enqueued after the worker has ended |

## Left out

- Sockets, select, curl, GPIO and PWM: what they carry appears as logs, their failures as inputs.
- Real threads: steps between mutex releases are atomic; the unlocked calls of door_udp_update from two threads (app/src/doorMod.c:53 and 104) are taken one after the other.
- Integer widths: command ids and clocks are unbounded; atoi beyond the range of int, wrap-around of ids and numbers JavaScript cannot represent are not modelled.
- Characters: one character stands for one byte; UTF-8 decoding in the bridge is not modelled.
- A sender address that is missing: handle_line allows it, its only caller never passes it.
- hub_udp_init on a hub that ran before: it keeps the pending commands and the next id, and runs here begin with a fresh process.
- The webhook URL: the log has every call of trigger_discord_alert; with an empty URL the code sends none of them.
- HubServer.Server.SendDue: the endpoint is read after the mutex is released, as in the code; that only the receiver thread writes that table is assumed, not proved.
- HubServer.Server.HandleCommand: registering reads the clock a second time (hal/src/hub_udp.c:145); the model gives it the handler's reading.
- DoorModule.OnDatagram: a command is one step; an update of the heartbeat thread in the middle of a rotation is not modelled.
- SendCommand.SendLoop: sleeping times between attempts and the LED tasks at the end are not modelled.
- Stepper.Motor.Rotate: which of the four pins were already written when a step fails is not modelled.
- Replica.ReplicaAgrees: a single wire in send order; reordering between the notification and the heartbeat port is not modelled.
- LedQueue.Queue.WorkOff: the worker after shutdown was asked for; every other turn is LedQueue.Queue.WorkerTurn.
- WebhookQueue.Queue.WorkOff: the worker after running was cleared; every other turn is WebhookQueue.Queue.WorkOne.
- WebhookQueue.Queue.Send: nothing comes between its two critical sections; apart they are AskFor and EnterFor.
- WebhookQueue.Queue.Shutdown: nobody enqueues meanwhile; with senders at work it is WebhookQueue.Play.
- LivenessBound.BoundIsTight: for gaps of at least 1 ms; with gap 0 no two updates can differ in time.
- RoundTrip.CommandRoundTrip: for ids of 1 to 15 characters, as the fields require, and words free of both programs' blanks.
- Broadcasts of the bridge to all web clients, raw sends, and its rewriting of older action texts.
- heartbeat_worker, which turns a sensor error into a closed door, and doorMod_cleanup, which turns to 180 degrees where its comment says unlock: the updates and rotations they make are covered, their timing is not.
- The command line, the HTTP interface, the web pages and the device wrappers, which would only add easy members.
- Allocation failure in the webhook queue.
