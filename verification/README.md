# Verification of the unit controller

A Dafny 4.11 model of the control daemon that runs on a drone's companion
computer, with proofs about its protocols. The daemon takes commands over
MQTT, restarts itself and other systemd units, polls an LTE modem with AT
commands, measures packet loss with ping, and exchanges MAVLink frames with
the flight controller, a ground station and a base station.

`dafny verify dfyconfig.toml` checks the whole project.

## What is modelled

| file | subject |
|---|---|
| `RestartProtocol.dfy` | the self-restart protocol as a transition system: the env directory, the boot number, where the handler and the completion publisher are, and the log of publish attempts; a crash may fall between any two steps |
| `RestartSafety.dfy` | its invariant over all runs; durability, claim isolation, progress |
| `RestartLifecycle.dfy` | the legal publish history of one uuid across boots, the discipline under which every history is legal, and runs that break it |
| `RestartExactness.dfy` | that this discipline is exact: a step that breaks it can be continued to an illegal history |
| `RestartUnit.dfy` | the handler and the publisher as imperative code over a class; every method extends a run of the protocol |
| `Liveness.dfy` | restarting another unit and polling that it stays active |
| `Topics.dfy`, `Dedup.dfy`, `Commands.dfy`, `Bridge.dfy`, `EventPath.dfy` | topic printer and parser, duplicate window, command lifecycle, the event path from broadcast ring to processor, and the layers put together |
| `Lte.dfy`, `FakeModem.dfy`, `NeighborCache.dfy`, `Slots.dfy` | AT response parsers and printers, the polling loop's neighbour map against the whole observation history, and the telemetry slots filled from it |
| `ModemWorker.dfy` | the modem request queue: serialised whole transactions, callers that may leave |
| `Outgoing.dfy`, `Identity.dfy` | the 500-frame MAVLink queue with its reconnecting consumer and paired telemetry, and the choice of the unit's own system id while it hears its own traffic |
| `Ping.dfy` | loss percentages from cumulative counters |
| `Text.dfy`, `Wrappers.dfy` | the string and integer operations the others rest on |

A state machine is given by `State`, `Action`, `Enabled` and `Next`; a run is
any sequence of enabled actions, so what is proved of runs is proved of every
interleaving. The classes carry a ghost record of the actions they have taken,
and their `Valid()` says that their fields are the state this record leads to:
the theorems about runs therefore hold of the imperative code.

## Hypotheses

- A scratch name chosen for a claim is in-flight-prefixed and not on the disk
  (the code builds it from the process id and the clock in nanoseconds).
- A write of the pending file is complete, leaves the file as it was, or
  leaves it empty; a rename is atomic. Both may be followed by a crash.
- `RestartLifecycle.Lifecycle` alone also asks for discipline, of the steps that
  concern the one uuid it speaks about, which may be any text. A uuid about
  which something was reported is not received again; a file that the next
  publisher will report as this uuid is written only while a completion of it
  is due, no other file names it, and the claim is not still to come in the
  boot that last reported about it; the delete of such a file by its own
  handler succeeds. Blank uuids and uuids of other commands do not matter.
  `RestartExactness.DisciplineIsExact` proves that this is exactly what is
  needed. `src/main.rs:156-183` starts both tasks without ordering the claim
  against a handler's write, so the code does not guarantee it.
- Cancelling the restart handler ends it with no further effect on the disk.
- `neighbor_expiry_s` is a non-negative real; percentages are exact rationals.

## Where the code and its design notes differ

`docs/plans/completed/2026-04-29-restart-command-design.md` (lines 104-120)
has the next boot read and delete the pending file before it publishes, and no
failure path for a restart of the daemon itself. The code claims the file by
renaming it, deletes it only after both publishes succeeded, and does report a
failure when systemctl refuses. The model follows the code.

## Findings

- Durability and isolation hold of every run with no ordering assumption.
- A step leaves every disciplined continuation with a legal history if and only
  if the step is disciplined (`DisciplineIsExact`). For the handler's own uuid that says: the
  claim of the boot is over before the write (`OwnWrite`), and the delete
  succeeds (`OwnDelete`). Otherwise the claim may take the file that this very
  boot has written, and the completion is published by the process that is
  about to be restarted (`ClaimAfterWrite`); or one uuid is reported failed now
  and completed by the next boot (`FailedAndCompleted`).
- The deferred completion carries the commanded uuid exactly when the uuid has
  no surrounding white space (`DeferredUuid`).
- The neighbour map is the recent part of the history if and only if the wall
  clock has not made an expired sighting look recent again (`RecentExactly`,
  `ClockStepBack`).
- A telemetry pair is whole in every run if and only if the frames that other
  producers enqueue between its capacity check and its second send are at
  least two fewer than the room the check saw (`WholeExactly`); with room for
  two, one such frame splits it (`OneOfferSplitsAPair`). Its copies are adjacent
  exactly when nothing was enqueued between the two sends (`PairsStayWhole`).
- The heartbeat keeps the id it resolved at its start; it is the id the
  telemetry uses if and only if no flight controller with a smaller id has been
  heard from outside since (`DroneAgreesUntilSmaller`).
- An interval that lost more than 99 percent is reported as 100 percent and
  unreachable even though something arrived (`CalculateLossPercent`).

## Model

| member | source | states |
|---|---|---|
| RestartSafety.InvHolds | src/services/mqtt/handlers/restart.rs:134-165 | in every state of every run: owned files exist and name their uuid, no two entries share a path, files left to background removal are empty, nothing without a uuid was published, the remove stage is backed by two Ok publishes |
| RestartSafety.StepIsDurable | src/services/mqtt/handlers/restart.rs:254-297 | one step makes a file that names a uuid disappear only by a release: both publishes Ok in this boot, or the handler's own overwrite or delete of the main path |
| RestartSafety.Durability | src/services/mqtt/handlers/restart.rs:329-450 | over any stretch of any run, across boots and crashes, a held uuid is gone at the end only if a step in between released it; scan, rename, failed read and crash never lose one |
| RestartSafety.ClaimIsolation | src/services/mqtt/handlers/restart.rs:250-297 | the scan never selects the main name, no handler step touches a file the publisher owns or has claimed, no publisher removal touches the main file |
| RestartSafety.TasksInterleave | src/main.rs:156-183 | what a task may do next depends on its own state and the files alone, and a crash may fall anywhere |
| RestartSafety.Progress | src/services/mqtt/handlers/restart.rs:348-450 | an undisturbed boot that has finished has both publishes logged Ok for every in-flight file that named a uuid, left none of them, and published nothing for empty ones |
| RestartSafety.ProgressOfMain | src/services/mqtt/handlers/restart.rs:336-342 | the same for the main file present at the start of such a boot: its uuid was delivered and what was written there is on no path any more |
| RestartSafety.EmptyFilesAreDiscarded | src/services/mqtt/handlers/restart.rs:348-357 | an in-flight file without a uuid that is on the disk when an undisturbed boot starts, with no background removal failing either, is in the end handed to background removal or gone |
| RestartSafety.PathsKnown | src/services/mqtt/handlers/restart.rs:36-37 | in every run every file of the directory is the main file or an in-flight one |
| RestartLifecycle.UuidInvHolds | src/services/mqtt/commands.rs:284-328 | in every state of a run that is disciplined for a uuid, the handler's position, the files that name a uuid and the publisher's stage agree with the publish history of that uuid |
| RestartLifecycle.LegalShape | src/services/mqtt/commands.rs:276-328 | what may follow what, one attempt at a time, gives histories of exactly one shape: Expired, or Accepted, InProgress, then Failed with its result in the same boot, or rounds of Completed and its result in strictly later boots |
| RestartLifecycle.ShapeIsLegal | src/services/mqtt/commands.rs:276-328 | conversely every history of that shape is legal step by step |
| RestartLifecycle.Lifecycle | src/services/mqtt/handlers/restart.rs:134-165 | for every uuid, in every state of a run that is disciplined for it, the publish attempts about it are a prefix of such a history; it is never reported both Failed and Completed |
| RestartExactness.DisciplineIsExact | src/services/mqtt/handlers/restart.rs:134-165 | after any disciplined run, a step leaves every disciplined continuation with a history of that shape if and only if the step is disciplined |
| RestartExactness.OwnWrite | src/main.rs:156-183 | for the handler's own uuid the write is disciplined exactly when this boot's claim is over, or the uuid is empty or has surrounding white space |
| RestartExactness.OwnDelete | src/services/mqtt/handlers/restart.rs:224-235 | and the delete exactly when it succeeds, or the uuid is empty or has surrounding white space |
| RestartExactness.RepeatedReceive | src/services/mqtt/commands.rs:269-286 | once anything was reported about a uuid, receiving it again goes on to an illegal history |
| RestartExactness.BadWrite | src/services/mqtt/handlers/restart.rs:336-448 | after any disciplined run, a write that must not happen yet goes on to an illegal history: an undue completion, two completions in one boot, or one in the boot that accepted the command |
| RestartExactness.BadDelete | src/services/mqtt/handlers/restart.rs:143-160 | after any disciplined run, a failed delete of a file that names the failed uuid goes on to a completion of it |
| RestartExactness.NextBootTries | src/services/mqtt/handlers/restart.rs:329-448 | from any state, after a crash the next boot can attempt to report every file that names a uuid |
| RestartLifecycle.DeferredUuid | src/services/mqtt/handlers/restart.rs:262 | the file written for a uuid is read back as that uuid exactly when it has no surrounding white space, and as empty exactly when it is nothing but white space |
| RestartLifecycle.ClaimAfterWrite | src/main.rs:156-183 | a run in which the completion of a uuid is published in the boot that accepted it, while its process still runs |
| RestartLifecycle.FailedAndCompleted | src/services/mqtt/handlers/restart.rs:224-235 | a run in which a failed delete leaves one uuid reported Failed and, a boot later, Completed |
| RestartUnit.Unit.ExecSelfRestart | src/services/mqtt/handlers/restart.rs:134-165 | parks exactly when directory and write worked and systemctl ran and either succeeded or ended without an exit code, killed by a signal; then the uuid is in the main file; otherwise it fails, takes the file back when systemctl refused, and touches no other file |
| RestartUnit.Unit.ExecAndPark | src/services/mqtt/handlers/restart.rs:155-164 | with the file written, a systemctl that succeeded or was killed by a signal parks with the file in place |
| RestartUnit.Unit.ExecAndFail | src/services/mqtt/handlers/restart.rs:147-162 | a systemctl that could not be run, or failed with an exit code, never parks |
| RestartUnit.ParkedIsDelivered | src/services/mqtt/handlers/restart.rs:329-450 | after a parked boot, a crash and an undisturbed boot the uuid is delivered and no file of its write is left |
| RestartUnit.Unit.WritePending | src/services/mqtt/handlers/restart.rs:134-142 | the write puts exactly the uuid and a newline in the main file, or fails and leaves every other file alone |
| RestartUnit.Unit.DeletePending | src/services/mqtt/handlers/restart.rs:224-235 | removes the main file and nothing else, or nothing when the delete fails |
| RestartUnit.Unit.CollectOrphanInflight | src/services/mqtt/handlers/restart.rs:273-297 | yields an entry for each in-flight file and no other, with its trimmed uuid, unless one of them cannot be read |
| RestartUnit.Unit.ScanOrphans | src/services/mqtt/handlers/restart.rs:330-335 | a failed scan goes on with no entries, a successful one with exactly the in-flight files |
| RestartUnit.Unit.ClaimMainPending | src/services/mqtt/handlers/restart.rs:254-268 | renames the main file to the scratch name and reads its uuid there; no file means no claim, an error leaves the disk as it is |
| RestartUnit.ClaimedNames | src/services/mqtt/handlers/restart.rs:336-357 | orphans and claimed file together, without the empty ones, are exactly the in-flight files that name a uuid after the rename |
| RestartUnit.Unit.DropEmpty | src/services/mqtt/handlers/restart.rs:348-357 | the in-place filter keeps exactly the entries with a uuid, in order, and hands over the paths of the others |
| RestartUnit.Unit.Retain | src/services/mqtt/handlers/restart.rs:348-362 | the publisher finishes when nothing is left to publish and otherwise waits with the kept entries |
| RestartUnit.Unit.Collect | src/services/mqtt/handlers/restart.rs:329-362 | without errors it ends up with exactly the uuids on disk, the main file having become an in-flight file |
| RestartUnit.Unit.AwaitConnected | src/services/mqtt/handlers/restart.rs:364-384 | goes on exactly when a connection comes before a cancel or the end of the channel, skipping other events and lag |
| RestartUnit.Unit.PublishBoth | src/services/mqtt/handlers/restart.rs:386-438 | attempts Completed and then the result, the result even when the status failed |
| RestartUnit.Unit.PublishOne | src/services/mqtt/handlers/restart.rs:386-449 | removes the entry's own file exactly when both publishes and the removal succeed |
| RestartUnit.Unit.PublishEntries | src/services/mqtt/handlers/restart.rs:386-449 | every entry gets its two attempts in order whatever happens to the others, and exactly the cleared files leave the disk |
| RestartUnit.Unit.RunPublisher | src/services/mqtt/handlers/restart.rs:329-450 | a boot of the publisher as a whole: which attempts it logs and which files are left |
| Liveness.PollBound | src/services/mqtt/handlers/restart.rs:460-479 | a poll that is still due has a number of at most ceil(window / interval) |
| Liveness.EndInTotal | src/services/mqtt/handlers/restart.rs:460-479 | a poll ends after the time of all polls up to it and of the pauses in between |
| Liveness.DefaultPolls | src/services/mqtt/handlers/restart.rs:34-35 | with the default window and interval there are at most 21 polls |
| Liveness.PollIsJudged | src/services/mqtt/handlers/restart.rs:466-474 | a poll passes exactly when systemctl succeeded and printed active; otherwise what it printed is reported, or unknown for blank output |
| Liveness.VerdictUnique | src/services/mqtt/handlers/restart.rs:454-480 | the polls and their times determine how the watch ends and after how many polls |
| Liveness.PassesExactlyWhenActive | src/services/mqtt/handlers/restart.rs:454-480 | a unit passes if and only if it is active at every poll the window has room for |
| Liveness.VerifyActive | src/services/mqtt/handlers/restart.rs:454-480 | the loop ends within ceil(window / interval) + 1 polls; Ok only if all were active and the last ended at or after the deadline; an error reports the first state that was not active |
| Liveness.RestartUnit | src/services/mqtt/handlers/restart.rs:102-132 | succeeds exactly when systemctl did and the unit stayed active; otherwise names the failure, and the first bad state |
| Topics.ExtractExactly | src/services/mqtt/commands.rs:237-249 | a name is extracted exactly from the topic built for it, and only if it is non-empty and free of slash, plus and hash |
| Topics.PrefixPlusIn | src/services/mqtt/commands.rs:242-246 | the prefix followed by "in" passes both outer tests and is still not a command |
| Topics.SegmentExactly | src/services/mqtt/transport.rs:37-55 | valid segments are exactly the non-empty texts without separator, wildcards and NUL |
| Topics.BuiltTopicsArePlain | src/services/mqtt/transport.rs:265-298 | no topic built from valid segments and plain names carries a wildcard or NUL |
| Topics.OwnTopicsAreNotCommands | src/services/mqtt/commands.rs:333-367 | status and result topics of the processor are never extracted as commands |
| Topics.CommandTopicLevels | src/services/mqtt/transport.rs:275-286 | a built topic has exactly the intended levels |
| Topics.CommandTopicInjective | src/services/mqtt/transport.rs:275-286 | two validated transports build the same topic only for the same prefix, node, command and suffix |
| Topics.TelemetryTopicLevels | src/services/mqtt/transport.rs:265-270 | a telemetry topic has exactly its five levels |
| Topics.StatusTopicLevels | src/services/mqtt/transport.rs:291-298 | a status topic has exactly its four levels |
| Topics.TopicKindsDisjoint | src/services/mqtt/transport.rs:265-298 | command, telemetry and status topics never coincide |
| Topics.ExtractsWhatItSubscribes | src/services/mqtt/commands.rs:154-166 | on a wildcard-free topic, extraction succeeds exactly when the subscribed filter matches (section 4.7.1.3 of MQTT Version 3.1.1) with a non-empty level |
| Dedup.WindowAppend | src/services/mqtt/commands.rs:412-419 | a new uuid drops the oldest remembered one exactly when 256 are remembered |
| Dedup.Spacing | src/services/mqtt/commands.rs:408-420 | two acceptances of one uuid are more than 256 acceptances apart |
| Dedup.WindowDistinct | src/services/mqtt/commands.rs:394-397 | the remembered uuids are pairwise different |
| Dedup.WindowSize | src/services/mqtt/commands.rs:412 | set and list have the same size, at most 256, so the set's size decides eviction correctly |
| Dedup.Remembered | src/services/mqtt/commands.rs:408-420 | after any call its uuid is remembered, so an immediate repetition is refused |
| Dedup.DedupQueue.Record | src/services/mqtt/commands.rs:408-420 | refuses exactly the remembered uuids; `order` stays the last min(256, n) accepted uuids without repeats and `seen` its set |
| Dedup.DedupQueue.Insert | src/services/mqtt/commands.rs:408-420 | the update in place of set and list |
| Commands.ExpiryMonotone | src/messages/commands.rs:84-94 | a longer time to live never expires sooner, none lasts more than ten years, expiry is final |
| Commands.ExpiryBoundary | src/messages/commands.rs:84-94 | without time to live a command expires once its issue time is past, each further second moves that moment by one second, and beyond ten years nothing does |
| Commands.LivesExactly | src/messages/commands.rs:84-94 | a command has not expired at any whole second within its time to live, and has a nanosecond after the last |
| Commands.TimelyCommandStarts | src/services/mqtt/commands.rs:269-311 | a first delivery of a known command within its time to live is never answered Expired: it is accepted, reported in progress, and its handler starts |
| Commands.LateCommandExpires | src/services/mqtt/commands.rs:276-282 | a first delivery after its time to live is answered Expired and nothing else, and starts nothing |
| Commands.StartsAreReported | src/services/mqtt/commands.rs:299-311 | handlers start exactly for the commands reported in progress, once each and in that order |
| Commands.DeliveryWasMessage | src/services/mqtt/commands.rs:211-218 | what is processed was received on the topic of its command |
| Commands.SubscriptionsDeliver | src/services/mqtt/commands.rs:154-166 | every filter the drain subscribes to matches, of the wildcard-free topics, exactly those a command is extracted from |
| Commands.SubscriptionCount | src/services/mqtt/commands.rs:219-222 | there are as many subscriptions as connections |
| Commands.BlockIsLegal | src/services/mqtt/commands.rs:276-328 | what one accepted delivery publishes is one legal lifecycle, cut after InProgress only by shutdown |
| Commands.TraceIsLegal | src/services/mqtt/commands.rs:202-329 | the publishes of any run are uninterleaved legal lifecycles of single commands |
| Commands.EveryPublishIsExplained | src/services/mqtt/commands.rs:257-329 | everything ever published answers a delivery of that command and uuid, and says what was due: Expired only when it was, Rejected only for an unknown command, Completed and an ok result only when the handler succeeded, Failed only when it did not |
| Commands.EveryDeliveryIsAnswered | src/services/mqtt/commands.rs:257-297 | every delivery that parses has its uuid answered with Accepted or Expired, duplicates by their first delivery |
| Commands.StartsAreSpaced | src/services/mqtt/commands.rs:269-311 | a handler starts only for an unexpired envelope of a known command, and twice for one uuid only with more than 256 acceptances from one to the next |
| Commands.StartsPlaced | src/services/mqtt/commands.rs:269-311 | every handler start belongs to one accepted uuid, in order |
| Commands.RedeliveryIsSilent | src/services/mqtt/commands.rs:270-274 | a redelivery (section 4.3.2 of MQTT Version 3.1.1) publishes nothing and starts nothing |
| Commands.CommandProcessor.RecordUuid | src/services/mqtt/commands.rs:251-254 | refuses exactly the remembered uuids |
| Commands.CommandProcessor.ProcessCommand | src/services/mqtt/commands.rs:257-329 | one message changes the trace as the specification of a delivery says, and records it |
| Commands.CommandProcessor.Execute | src/services/mqtt/commands.rs:276-328 | publishes the lifecycle of a command that is no duplicate, and starts its handler at most once |
| Commands.CommandProcessor.DrainCommands | src/services/mqtt/commands.rs:202-234 | handles exactly the messages on command topics, in order, and for every connection subscribes once more, to a filter that delivers exactly the topics a command is extracted from |
| Bridge.Conservation | src/services/mqtt/commands.rs:175-234 | every broadcast event is finished, in progress, in the channel (at most 64), held (at most 1), unread (at most 256), overwritten, or reported lagged; what gets through keeps the broadcast order without repeats |
| Bridge.CapacityExact | src/services/mqtt/commands.rs:83-104 | with both tasks blocked, something was overwritten unread if and only if more than 256 + 1 + 64 + 1 events are outstanding |
| Bridge.NoLossNoLag | src/services/mqtt/commands.rs:168-200 | as long as the ring is never overrun, the pipeline is the broadcast sequence itself |
| Bridge.OverrunResumes | src/services/mqtt/commands.rs:187-194 | an overrun receiver is told exactly how many events were overwritten and then holds the oldest of the 256 kept |
| Bridge.InTimeReceives | src/services/mqtt/commands.rs:180-186 | one that is not overrun holds the very next event and is told nothing |
| Bridge.EventBridge.ReceiveEvent | src/services/mqtt/commands.rs:178-194 | the bridge holds the next event, or learns how many it missed and goes on with the oldest kept |
| Bridge.EventBridge.ForwardEvent | src/services/mqtt/commands.rs:183 | the awaited send completes only when the channel has room |
| Bridge.EventBridge.RunUntilBlocked | src/services/mqtt/commands.rs:91-104 | both tasks run until neither can go on, which they reach; then an event is missing if and only if more than 322 are outstanding, and nothing was missed on the way from a ring that was not overrun |
| Bridge.EventBridge.SendAll | src/services/mqtt/commands.rs:83-104 | from a blocked state that is not overrun, events announced one by one while the tasks keep up are never reported missed as long as at most 322 are outstanding with them |
| EventPath.FinishedCommandIsAnswered | src/services/mqtt/commands.rs:175-329 | over every interleaving, a broadcast message on a command topic that parses and that the drain has finished has its uuid answered |
| EventPath.NothingIsPassedOver | src/services/mqtt/commands.rs:168-234 | without an overrun, what the drain has finished is exactly what was broadcast first |
| EventPath.BroadcastCommandIsAnswered | src/services/mqtt/commands.rs:91-104 | without an overrun, every command message among the first events broadcast, as many as were finished, is answered |
| EventPath.MessageIsDelivered | src/services/mqtt/commands.rs:213-217 | every message on a command topic reaches the processor under its command's name |
| LteParsers.FieldOfPadded | src/sensors/lte.rs:28-30 | an integer is read back through quotes and padding |
| LteParsers.JunkIsZero | src/sensors/lte.rs:27-30 | a field with a character that is no digit, sign, quote or white space is read as 0 |
| LteParsers.MissingIsZero | src/sensors/lte.rs:27-30 | so are an empty field, a lone dash, and a number that 32 bits do not hold |
| LteParsers.QuectelRoundTrip | src/sensors/lte.rs:59-130 | on every Quectel model a response that carries a signal is read back to exactly that signal |
| LteParsers.ShortServingIsRefused | src/sensors/lte.rs:64-66 | a response with fewer fields than its model sends is not read |
| LteParsers.ShortSimcomIsRefused | src/sensors/lte.rs:38-42 | so is a SIMCOM response without a colon or with fewer than 14 fields |
| LteParsers.OtherKindIsRefused | src/sensors/lte.rs:60-62 | a Quectel response that does not mention the serving cell is not read |
| LteParsers.CellRoundTrip | src/sensors/lte.rs:133-150 | a neighbour line of eight fields or more is read back to the cell it carries |
| LteParsers.OtherLineIsRefused | src/sensors/lte.rs:133-140 | a line that does not mention a neighbour cell, or has fewer than eight fields, describes no cell |
| LteParsers.SimcomRoundTrip | src/sensors/lte.rs:37-53 | the SIMCOM response is read back with three values in tenths, truncated toward zero |
| Text.Tenth | src/sensors/lte.rs:46-48 | division by ten truncates toward zero |
| Text.ParseShown | src/sensors/lte.rs:28-30 | printing and parsing an integer is the identity on every integer type that holds it |
| Text.OutOfRange | src/sensors/lte.rs:28-30 | a printed integer that the type does not hold is refused |
| Text.ReadIsDigits | src/sensors/lte.rs:28-30 | only digits after at most one sign are read |
| Text.DecimalExample | src/services/modem_access/fake.rs:83-86 | the printed digits are decimal |
| Text.SplitJoin | src/sensors/lte.rs:63 | splitting undoes joining for parts without the separator |
| Text.JoinSplit | src/sensors/lte.rs:63 | joining undoes splitting, for every text |
| Text.TrimFixed | src/sensors/lte.rs:29 | a text is its own trimming exactly when neither end is to be removed |
| FakeModem.ServingRoundTrip | src/services/modem_access/fake.rs:68-86 | for every counter value the printed serving cell is parsed back exactly, within its bands |
| FakeModem.DriftSweeps | src/services/modem_access/fake.rs:70-77 | each drifting value sweeps its whole band one step at a time and starts over |
| FakeModem.NeighborBands | src/services/modem_access/fake.rs:93-108 | the bands in which the two neighbours drift, and the fixed distances between them |
| FakeModem.NeighborLineRoundTrip | src/services/modem_access/fake.rs:114-118 | every printed neighbour line is parsed back to the cell it was printed from |
| FakeModem.NeighborRoundTrip | src/services/modem_access/fake.rs:88-121 | for every counter value the response is exactly three lines and describes exactly the two printed cells |
| FakeModem.FakeModemAccess.SynthServingcell | src/services/modem_access/fake.rs:68-86 | each call takes the next counter value and prints its response |
| FakeModem.FakeModemAccess.Command | src/services/modem_access/fake.rs:38-56 | answers by the first heading that fits, and only the two cell queries use the counter |
| FakeModem.CommandsAreRecognised | src/services/modem_access/fake.rs:39-55 | every command the unit sends is recognised as what it asks for |
| FakeModem.FakeModemAccess.SynthNeighbourcell | src/services/modem_access/fake.rs:88-121 | the loop that appends line by line prints the joined response of the next counter value |
| NeighborCache.CacheUnderAnyClock | src/sensors/lte.rs:163-165 | whatever the clock did, a pcid is in the map exactly when its last sighting was no older than the expiry at every query since, and then with that sighting |
| NeighborCache.RecentExactly | src/sensors/lte.rs:248-270 | the map is exactly the recent part of the history if and only if the clock has made no expired sighting look recent again |
| NeighborCache.CacheRefinesHistory | src/sensors/lte.rs:237-310 | with a clock that does not go back, the map holds for each pcid its latest observation that was not the then-serving cell and is no older than the expiry, and nothing else |
| NeighborCache.ClockStepBack | src/sensors/lte.rs:168-173 | three queries at 100, 200 and 105 after which the map is not the recent history |
| NeighborCache.SharedAgreesAlways | src/sensors/lte.rs:272-300 | at each iteration boundary the shared reading, when present, carries exactly the local map and the last signal that parsed |
| NeighborCache.KeysArePcids | src/sensors/lte.rs:261-268 | every key is the pcid of its cell |
| NeighborCache.OthersHaveNoNeighbors | src/sensors/lte.rs:186-188 | no modem but EM12 ever has a neighbour in the map |
| NeighborCache.SimulationEndToEnd | src/services/modem_access/fake.rs:68-121 | against the simulated modem, after any number of replies, the map is exactly the two cells printed last, stamped with the time of that query, and the shared reading exactly the last printed signal with the same cells |
| NeighborCache.QueriesByModel | src/sensors/lte.rs:175-188 | EM12 is asked alternately for the serving cell and its neighbours, the other Quectel models only for the serving cell, SIMCOM for its own status |
| NeighborCache.SimulatedQuery | src/sensors/lte.rs:175-188 | the command of each iteration is the one whose simulated response the loop is to read, serving cell and neighbours alternating |
| NeighborCache.LteSensor.PollLoop | src/sensors/lte.rs:226-310 | the loop over replies computes the specified cache, serving and neighbour queries alternating on EM12 |
| NeighborCache.LteSensor.ServingAnswer | src/sensors/lte.rs:286-303 | replaces the shared reading exactly when the response parses |
| NeighborCache.LteSensor.NeighborAnswer | src/sensors/lte.rs:250-276 | absorbs the lines of a response, expires the map and copies it to the shared reading |
| Slots.CacheIsKeyed | src/sensors/lte.rs:261-268 | the map the reporter receives is keyed by pcid |
| Slots.NeighborMessages | src/mavlink/telemetry_reporter.rs:79-97 | exactly min(10, count) messages on contiguous subcommands from 31040, each cell in the slot of its rank by pcid with every value in the field of its name; the builder never refuses a slot |
| Slots.BuildRoundTrip | src/mavlink/telemetry_reporter.rs:284-311 | slot and cell are decoded from the message, and exactly the ten slots can be built |
| Slots.SimulatedSlots | src/mavlink/telemetry_reporter.rs:79-97 | against the simulated modem a tick sends exactly the two cells printed last |
| Slots.CanonicalIsUnique | src/mavlink/telemetry_reporter.rs:79-97 | the messages depend on the map alone, not on its iteration order |
| Slots.IndexIsRank | src/mavlink/telemetry_reporter.rs:81-84 | in a sorted listing of distinct pcids the index of a cell is its rank |
| ModemWorker.RegistrationRoundTrip | src/services/modem_access/mod.rs:383-398 | after any other lines, a printed CREG or CEREG status is read back |
| ModemWorker.CodeRoundTrip | src/services/modem_access/mod.rs:135-157 | every status is read back from its code in 3GPP TS 27.007, and codes without a status of their own are unknown |
| ModemWorker.StatusRoundTrip | src/services/modem_access/mod.rs:383-398 | a printed status is read back from a reply with any other lines before it and anything after it |
| ModemWorker.OtherLinesAreIgnored | src/services/modem_access/mod.rs:385-387 | only lines with one of the two headings are about registration |
| ModemWorker.FirstImsiLine | src/services/modem_access/mod.rs:401-407 | the IMSI is the trimmed first line that is non-empty and all digits, and there is none exactly when there is no such line |
| ModemWorker.CimiIsDigits | src/services/modem_access/mod.rs:401-407 | an IMSI read from a reply is a non-empty text of digits |
| ModemWorker.ImsiRoundTrip | src/services/modem_access/mod.rs:401-407 | a printed IMSI is read back after any lines that do not read as one, whatever follows |
| ModemWorker.SimulatedRegistration | src/services/modem_access/fake.rs:49-54 | the simulated modem's registration replies read as registered at home |
| ModemWorker.SimulatedSim | src/services/modem_access/fake.rs:46-48 | its IMSI reply reads as its fixed IMSI |
| ModemWorker.SerialTransactions | src/services/modem_access/mod.rs:279-327 | over every interleaving the backend's log is one block per dequeued call in order of submission; every block but the one being served is a whole transaction, so the CEREG and CREG queries of one request are never split |
| ModemWorker.OwnAnswer | src/services/modem_access/mod.rs:315-346 | a caller receives only the outcome of the replies logged for its own request or, if that is still queued when the worker exits, the dropped-reply error |
| ModemWorker.VerbatimAnswer | src/services/modem_access/mod.rs:301-313 | model names and commands are answered with the backend's text or error, unchanged |
| ModemWorker.ImsiAnswer | src/services/modem_access/mod.rs:81-86 | an IMSI request is answered with digits, with the backend's error, or with the parse error when no line reads as an IMSI |
| ModemWorker.RegistrationAnswer | src/services/modem_access/mod.rs:88-100 | a registration request is answered with the status or error of the last reply, and the first reply decides alone exactly when it carries a status |
| ModemWorker.AnsweredAtMostOnce | src/services/modem_access/mod.rs:333-346 | however the run goes on, an answered or departed caller is never answered again |
| ModemWorker.LeavingDisturbsNobody | src/services/modem_access/mod.rs:341-345 | leaving all timeouts and dropped receivers out of a run gives a run with the same queue, log and answers for everyone else |
| ModemWorker.TransactionIsWhole | src/services/modem_access/mod.rs:82-100 | what one request makes of any backend is a whole transaction |
| ModemWorker.ModemAccessService.Serve | src/services/modem_access/mod.rs:300-325 | one turn of the worker appends one whole transaction to the log and answers that caller alone |
| ModemWorker.ModemAccessService.ReadRegistration | src/services/modem_access/mod.rs:89-100 | CEREG first, CREG only if that failed or did not parse; the result depends on the last reply |
| ModemWorker.ModemAccessService.ReadImsi | src/services/modem_access/mod.rs:82-86 | answers a non-empty text of digits, and succeeds exactly when the reply has a line that is one |
| ModemWorker.ModemAccessService.Enqueue | src/services/modem_access/mod.rs:338-341 | a request is queued exactly when the queue has room and the worker lives |
| ModemWorker.ModemAccessService.Stop | src/services/modem_access/mod.rs:295-298 | on cancellation every queued request's caller that still waits gets the dropped-reply error |
| Outgoing.QueueConservation | src/mavlink/drone_component.rs:32-108 | at most 500 frames are queued, and every accepted frame is exactly once sent, discarded, lost to a send error, in the batch, or queued |
| Outgoing.WireOrderAndFreshness | src/mavlink/drone_component.rs:46-97 | the wire carries a subsequence of the enqueue order, and no frame enqueued before a connection is sent on it |
| Outgoing.PairsStayWhole | src/mavlink/telemetry_reporter.rs:114-150 | in every run a pair is whole when the frames of others stay two below the room its check saw; a whole pair has, GCS first, exactly the frames between its copies that came between its sends; the consumer never breaks it |
| Outgoing.OthersSplitAPair | src/mavlink/telemetry_reporter.rs:125-142 | whatever room was seen, every larger number of frames has a run that leaves the GCS copy without its partner |
| Outgoing.WholeExactly | src/mavlink/telemetry_reporter.rs:123-142 | pairs that saw this much room and this many frames of others are whole in every run if and only if those are at least two fewer |
| Outgoing.OneOfferSplitsAPair | src/mavlink/telemetry_reporter.rs:138-142 | the smallest case: room for two and one frame of another producer |
| Outgoing.DroneComponent.SendToBoth | src/mavlink/telemetry_reporter.rs:114-150 | run without interruption, enqueues both copies or neither |
| Outgoing.DroneComponent.SendFirst | src/mavlink/telemetry_reporter.rs:135-137 | the GCS copy is enqueued first |
| Outgoing.DroneComponent.SendSecond | src/mavlink/telemetry_reporter.rs:135-137 | the base station copy follows |
| Outgoing.DroneComponent.DiscardStale | src/mavlink/drone_component.rs:46-54 | everything queued before the connection is discarded |
| Outgoing.DroneComponent.DrainQueue | src/mavlink/drone_component.rs:102-108 | pulls the whole queue in order |
| Outgoing.DroneComponent.SendBatch | src/mavlink/drone_component.rs:88-94 | sends up to the first failure, which loses the rest of the batch |
| Outgoing.DroneComponent.OneTick | src/mavlink/drone_component.rs:87-95 | one tick reports a lost connection exactly when a send of its batch failed |
| Outgoing.DroneComponent.Session | src/mavlink/drone_component.rs:42-63 | one connection: discards what was stale, and if no send fails the wire carries everything that fitted, in order |
| Outgoing.DroneComponent.Connect | src/mavlink/drone_component.rs:32-65 | the loop reconnects after every refused or broken connection and ends with the first one that lasts; each opened connection is counted once |
| Identity.IdentitySafety | src/mavlink/drone_component.rs:124-139 | in every reachable state of a valid configuration the resolved id is positive, none of the unit's other ids and, if discovered, below 200; nothing is emitted before an external flight controller is heard, the unresolved branch is never taken |
| Identity.ValidExactly | src/config.rs:229-260 | a configuration passes exactly when the three other ids are three and the unit's own is open or none of them |
| Identity.FcRange | src/mavlink/mod.rs:72-76 | the ids from 1 to 199 belong to flight controllers and no others |
| Identity.OwnEchoesAddNothing | src/mavlink/sniffer_component.rs:141-172 | under autodiscovery the unit's own heartbeats never enlarge the discovered set |
| Identity.ConfiguredEchoAdds | src/mavlink/sniffer_component.rs:145-149 | with a configured id an echo adds it exactly when it was not known yet |
| Identity.ResolutionDescends | src/context.rs:77-83 | under autodiscovery the resolved id never exceeds one resolved earlier |
| Identity.ReportsDescend | src/mavlink/telemetry_reporter.rs:47-53 | the ids the reporter uses over a run never increase |
| Identity.DroneAgreesUntilSmaller | src/mavlink/drone_component.rs:129-137 | after the heartbeat resolved its id, it keeps it, and in every later state that id is the one telemetry resolves if and only if no external flight controller with a smaller id was heard since |
| Identity.SmallerExactlyWhenHeard | src/mavlink/sniffer_component.rs:141-172 | a smaller flight controller id is discovered exactly when one is heard from outside |
| Identity.ResolvesOnce | src/mavlink/drone_component.rs:124-137 | the heartbeat task never resolves its id a second time |
| Identity.Context.SelfSysid | src/context.rs:77-93 | the configured id, or the least discovered id strictly between 0 and 200, or none when there is none |
| Identity.Context.HandleHeartbeat | src/mavlink/sniffer_component.rs:141-172 | adds the sender unless it is the sniffer, base station or GCS |
| Identity.Context.AddSystem | src/context.rs:95-98 | inserts the id and says whether it was new |
| Ping.CalculateLossPercent | src/sensors/ping.rs:250-258 | the least whole percentage that covers every missing packet; 100 exactly when less than one percent arrived |
| Ping.DeltasTelescope | src/sensors/ping.rs:223-235 | the intervals add up to at least the final counters, and to exactly them if and only if no counter went back |
| Ping.LossIsTight | src/sensors/ping.rs:228-258 | over any run the weighted percentages cover every missing packet and overstate them by less than the total sent |
| Ping.LossAgainstFinalCounters | src/sensors/ping.rs:223-258 | against the final counters alone the losses are never understated |
| Ping.PingSensor.ComputeReading | src/sensors/ping.rs:223-244 | the reading of an interval and the counters kept for the next |
| Ping.PingSensor.ReadAll | src/sensors/ping.rs:80-165 | every line of a process gets the reading of its interval |

## Left out

- D-Bus, TLS, X.509, rumqttc, serde and tokio: each appears as a parameter, an oracle or a bounded channel.
- The MQTT event loop, its last will and the status and telemetry publishers: the retained state depends on the broker.
- System sensors, network and camera probing, the ping subprocess and its regular expression.
- Most of the configuration loader, the env-file writers, schema generation, and the placeholder handlers.
- The AT allowlist, modem model detection with its retry loop, and the table of MAVLink subcommand numbers other than the neighbour slots.
- The simulated modem's own shortcut for an IMSI request, which bypasses AT+CIMI; requests that wait for room in the queue.
- The delayed reboot: it spawns one command and reports success before it runs.
- Rounding of f32 telemetry fields and of f64 percentages.
- 64-bit wrap-around of counters, and overflow of issue time plus time to live in the date library.
- File names and file contents that are not UTF-8.
- A blocking file operation that completes after its handler was cancelled.
- The duplicate window inside the restart protocol: there any uuid may be received again, as it may be after a boot or 256 other commands.
- Files that change while the directory is being scanned: a scan is one step.
- The texts of error messages that no caller parses.
- Shutdown of the event bridge and a closed outgoing channel.
- Slots.NeighborMessages: does not model the sorting algorithm; any sort by pcid of any listing of the map will do.
- Ping.CalculateLossPercent: exact arithmetic; the code's f64 can land one percent higher, for example at 57 of 100.
- Liveness.RestartUnit: the error is a value that carries the unit, exit code and text, not the formatted message.
- Outgoing.DroneComponent.Session: the frames of other tasks arrive between ticks; that they may arrive at any step is covered by the theorems about runs.
- RestartUnit.Unit.RunPublisher: one task at a time; interleaving with the handler is covered by the theorems about runs.
- ModemWorker.ModemAccessService.Serve: clients do not act inside one turn of the class; the theorems about runs let them act at any step.
