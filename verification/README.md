# An NVMe-MI drive manager, modelled and proved in Dafny

The program manages NVMe drives over MCTP. All endpoints share one worker thread that talks to the drives;
results come back to a single main loop; each drive is a state machine driven by replies, a five-second poll
timer and D-Bus calls; and D-Bus discovery fills the map of drives. This project models those parts and the
way they interact, and proves what holds in every run.

Check everything with `dafny verify dfyconfig.toml`.

## How the model is built

* **Steps and runs.** Each component is a state with a total step function. A thread that is chosen while it is
  blocked does nothing, so every sequence of actions is a schedule, and a statement about `Exec(run)` is one about
  every interleaving. `Run` holds the actions taken so far.
* **Objects.** What the program changes in place is a class (`Worker`, `WorkerMap`, `Endpoint`, `NVMeDevice`,
  `GetObjects`, `DriveManager`). Each object that has a machine carries a ghost history of the actions it has been
  through, and `Valid()` says that it is where that history takes the machine. The drive's handlers, the discovery's
  callbacks, the methods of `WorkerMap` and `Worker.Take` require and ensure `Valid()` and append their action, so a theorem about every run is one about every valid object; the lemmas
  `Consistent` spell some of them out. Methods that run in the middle of one of these, such as `SetStatus` or the
  worker's single steps, say what they do to the fields instead. A trapped program runs no handler, so handlers require
  that the drive is not `halted`.
* **Two accounts.** The machine's step functions follow the program's code. What a drive publishes is also told without
  them, in `DeviceTrace`: each field from the last replies that bear on it, by the bits and fields of those replies. The
  drive map has the same in `KeysExactly`, `MadeFromFirst`, `BusHeldExactly` and `AssociationHeldExactly`, and the worker's
  completions in `ErrorSays` and `SuccessDelivers`.
* **Layers.** `Manager` puts the worker protocol, the main loop's queue, the poll timer and the drive machine
  together. `ManagerFlow.PartsRun` shows that each part, seen alone, runs its own machine, so what is proved of
  the worker or the drive by itself holds in the whole program.

| files | what they model |
|---|---|
| `Worker`, `WorkerThread` | the worker thread, its stop flag, lock, condition variable and queue |
| `Ownership`, `WorkerMap` | who keeps the worker alive, and the map that shares it |
| `NVMeMi` | the operations run on the worker and how each completes |
| `Device`, `NVMeDevice`, `DeviceProperties`, `DeviceTrace`, `Progress`, `LinkSpeed` | one drive: its handlers, what every run keeps, and what is published told from the replies alone |
| `Manager`, `ManagerFlow`, `ManagerProperties`, `ManagerOrder`, `ManagerCommands`, `ManagerRest`, `ManagerSchedules` | the whole program seen from one drive |
| `Discovery`, `ForkJoin`, `GetObjects` | the discovery object |
| `DriveMap`, `DriveManager` | the drive map and the handlers of discovered objects |

## Where the code does not do what it seems meant to

The model follows the code. For each point a lemma gives the exact condition. Where a second lemma is named it shows
the failing input, for replies as a run of the whole program in which each answers a command the drive has issued.

* The condition variable is waited on without a predicate. A post, or the destructor's notification, that comes
  after the worker's last run of its queue and before its wait is lost: `BlockedExactly` and `JoinReturnsExactly`.
  The destructor's notification is lost as well while the worker is still inside a run of its queue, for the stop
  flag is read only after the wait. `JoinCanHang` and `FirstScanCanStall` give schedules.
* So the whole program can come to rest with commands left in the worker's queue, and then the drive is no longer
  polled. `RestMeansLostWakeup` says that a program whose drive is present can come to rest in no other way, and
  `NextCommandFrees` that the next posted command, of any drive, ends it.
* A scan that finds no controller arms no timer, and it is, traps aside, the only thing that ends the poll loop
  (`ContinuationEndsExactly`), although the timer's handler would initialise an absent drive again: a drive whose
  first scan fails is given up (`FirstScanFailsForGood`).
* `adminGetLogPage` completes twice, first with an error and then with a success, exactly when its return code is
  positive: the early `return` is inside the inner function object (`OnceExactly`).
* The reservation and sanitize logs keep their return code in an inner variable. A failed read is reported as a
  failure exactly for the other logs (`FailureReportedExactly`); for these two it is delivered as a zero-filled
  success (`FailedSanitizeReadLooksGood`). A verdict is never taken from such a page (`VerdictIsRead`).
* A negative return code is handed on with the system's error number, and handlers test the error code made of it. With
  the number zero that says "no error" and comes without data: a scan finds no controller, a sanitize counts as
  acknowledged (`AcknowledgedExactly`, `SilentFailureAcknowledged`), and the handlers that read data follow a null
  pointer. Apart from the two logs above every other failure is reported (`FailureReportedExactly`, `OtherFailuresReportedExactly`).
* `setNodmmas` masks an eight-bit value with bit 31. The flag keeps its initial value until the first identify and is
  zero from then on (`NodmmasNeverSet`), so it says what the capability says exactly if bit 31 is clear
  (`NodmmasMeantExactly`).
* `updatePercent` divides by the reported end time; a zero traps, as does the null pointer above. The model has a
  `halted` state for that, entered exactly then (`HaltsExactly`, `ZeroEstimateTraps`). The 32-bit product wraps: the percentage is right exactly while it fits or once
  the end time has passed (`PercentExact`), and falls between two polls exactly as `FallsExactly` says;
  `WrapFallsBack` is a case at an elapsed time that polls do reach.
* An acknowledged sanitize starts with the percentage left from before, so with zero exactly if that was zero
  (`StartsAtZeroExactly`); in `StaleHundred` it starts with 100.
* A second erase is accepted until the first is acknowledged, and its failure ends the first one's operation
  (`SecondEraseEndsFirst`); `ProgressEndsExactly` lists all ends.
* The first SMART reading is compared with 0xff, so published flags are right exactly if some effective reading so
  far was not 0xff (`SmartPublishesExactly`, `FirstReadingLost`); with the two reserved bits clear they always are.
* Health is Critical exactly while the drive is not functional and no changed SMART reading has come since it failed
  (`CriticalExactly`, `CriticalLeftExactly`), so a drive that is not functional can be published as OK (`FailureMasked`).
* The published current speed is the true one exactly for speeds 1 to 5 or an inactive link, the maximum exactly if no
  speed above the fifth is supported (`CurrentExactly`, `MaximumExactly`); `UnknownSpeed` shows a sixth-generation port.
* The drive map's key and the drive's own endpoint have eight bits while an endpoint number has more: after a round
  an endpoint has a drive that was made from it and talks to it exactly if its number is below 256 and it came first
  with its low byte (`OwnDriveExactly`; `LowByteShared` and `HighNumberMissed`).
* The loop over inventory objects carries both the bus and the association over. An object hands its drives an
  association that is not its own exactly if it has none and one is held, and hands one to drives that are not
  its own exactly if it names no bus and one is held (`AssociationCarriedExactly`; `ChassisLeaks` and `BusLeaks`).
* The interface counter has eight bits and counts duplicates. `FilterExactly` says for all inputs when it lets a path
  pass and `SubsetTestExactly` when that is the subset test; `DuplicatesFool` and `TooManyToCount` are inputs.

## Model

| member | source | states |
|---|---|---|
| WorkerThread.Worker.LoopStep | src/NVMeMi.cpp:65-89 | the worker loop's next atomic step is the protocol's: run a task, drain, take the lock, wait, read the stop flag, final run, exit |
| WorkerThread.Worker.PostStep | src/NVMeMi.cpp:106-119 | a caller's next step in `post` is the protocol's, and it throws exactly if it finds the stop flag set at one of the two checks |
| WorkerThread.Worker.DestructorStep | src/NVMeMi.cpp:91-100 | the destructor's next step is the protocol's: set the flag, lock, notify, unlock, join |
| WorkerThread.Worker.SpuriousWakeup | src/NVMeMi.cpp:79 | the wait may return without a notification |
| WorkerThread.Worker.Take | src/NVMeMi.cpp:65-119 | one scheduled step of any thread keeps the object where its history takes the protocol |
| WorkerThread.Worker.Consistent | src/NVMeMi.cpp:65-119 | a valid worker object satisfies the protocol's invariant, so accepted = executed ++ running ++ queued |
| WorkerProtocol.StepKeepsInv | src/NVMeMi.cpp:65-119 | every step of worker, callers and destructor keeps mutual exclusion, the queue's bookkeeping, the fate of every call and the wake-up accounting |
| WorkerProtocol.Conservation | src/NVMeMi.cpp:106-119 | in every interleaving accepted = executed ++ running ++ queued, in order, none twice |
| WorkerProtocol.CallOutcome | src/NVMeMi.cpp:106-119 | a call that returned is accepted exactly once; one that threw, or has not enqueued yet, not at all, and a throw means the stop flag is set |
| WorkerProtocol.DrainOnExit | src/NVMeMi.cpp:80-85 | once the thread has exited the queue is empty and every call that returned normally has been executed |
| WorkerProtocol.BlockedExactly | src/NVMeMi.cpp:73-79 | while the worker blocks, whoever holds the lock, a task is undone exactly if it was accepted between the return of the run and the taking of the lock in this round, or its notification is just about to be sent |
| WorkerProtocol.WakeupServesEarlierJobs | src/NVMeMi.cpp:73-88 | when the worker blocks again, everything accepted before its last wake-up has been executed |
| WorkerProtocol.LeftAloneServes | src/NVMeMi.cpp:73-88 | left alone, the worker executes everything accepted and blocks, unless it is already past its run and on its way to the wait; then it executes nothing |
| WorkerProtocol.PostMakesUp | src/NVMeMi.cpp:106-119 | one more uninterrupted `post` to a blocked worker makes up for all missed notifications |
| WorkerProtocol.SettleStopped | src/NVMeMi.cpp:73-88 | with the stop flag set, a worker past its wake-up exits with everything done and any other one blocks |
| WorkerProtocol.JoinReturnsExactly | src/NVMeMi.cpp:91-100 | from every joining state, once a caller holding the lock has let go of it and the worker is left alone, the join returns exactly if the notification met a waiting or already woken worker, or a spurious wake-up came later; then all accepted tasks are done, otherwise the worker blocks for good |
| WorkerProtocol.JoinVerdictStands | src/NVMeMi.cpp:91-119 | what decides the join is changed by no step of worker, destructor or any caller that comes meanwhile, only by a spurious wake-up |
| WorkerProtocol.JoinedOnlyIf | src/NVMeMi.cpp:91-100 | in no schedule at all does the join return otherwise |
| WorkerProtocol.JoinCanHang | src/NVMeMi.cpp:91-100 | a schedule in which the join hangs although nothing was ever posted |
| Ownership.SingleLiveWorker | src/NVMeMi.cpp:39-49 | all live endpoints hold the same worker, the one in the map, and its stop flag is clear |
| Ownership.StopFindsNothing | src/NVMeMi.cpp:91-128 | once a stop flag is set nothing is queued, running or being posted there; and no call of `post` through an endpoint is ever rejected |
| Ownership.OneWorkerWorks | src/NVMeMi.cpp:39-49 | at most one worker has anything to do, so device calls of all endpoints are totally ordered |
| Ownership.ReferencesCounted | include/NVMeMi.hpp:100-109 | in every run an endpoint is referred to from outside once for its creation and each copy, less what has been given up |
| Ownership.RunKeepsInv | include/NVMeMi.hpp:100-109 | creating, copying, releasing, posting, thread steps and destruction keep the ownership invariant in every interleaving |
| WorkerSharing.WorkerMap.CreateEndpoint | src/NVMeMi.cpp:39-49 | an endpoint shares the worker in the map unless that has no live owner, in which case it starts and records a new one |
| WorkerSharing.WorkerMap.Consistent | include/NVMeMi.hpp:100-109 | valid objects satisfy the ownership invariant |
| WorkerSharing.WorkerMap.Post | src/NVMeMi.cpp:121-128 | posting through an endpoint starts a call at its own worker and holds the endpoint |
| WorkerSharing.WorkerMap.PostStep | src/NVMeMi.cpp:106-119 | on valid objects the exception is never thrown |
| WorkerSharing.WorkerMap.Release | include/NVMeMi.hpp:100-109 | giving up a reference leaves workers and map alone |
| WorkerSharing.WorkerMap.DestructorStep | src/NVMeMi.cpp:91-100 | only a worker without a live owner is destroyed |
| NVMeMi.Endpoint.Request | src/NVMeMi.cpp:146-161 | a request goes to the worker, or is answered at once with "no such device" if the endpoint was not opened |
| NVMeMi.Endpoint.RunChecked | src/NVMeMi.cpp:313-351 | scan, identify, health poll and sanitize post one completion on each of the three paths of their return code |
| NVMeMi.Endpoint.RunPortInformation | src/NVMeMi.cpp:160-221 | the port operation posts one completion on every path |
| NVMeMi.Endpoint.RunGetLog | src/NVMeMi.cpp:665-912 | the log operation posts its literal completions, one or two |
| NVMeMi.Endpoint.RunTransfer | src/NVMeMi.cpp:942-997 | a transfer posts one completion; a positive code counts as success |
| NVMeMi.Endpoint.RunSecuritySend | src/NVMeMi.cpp:1085-1117 | one completion, decided by the system error number |
| NVMeMi.Endpoint.RunSecurityReceive | src/NVMeMi.cpp:1119-1174 | one completion; excess data is a protocol error |
| NVMeMi.IntendedOnce | src/NVMeMi.cpp:882-912 | with the early return in place, every command completes exactly once on every path |
| NVMeMi.OnceExactly | src/NVMeMi.cpp:894-912 | as written, a command completes exactly once as intended, except that a log request with a positive code that is neither refused nor hidden posts an error and then a success |
| NVMeMi.FailureReportedExactly | src/NVMeMi.cpp:834-912 | for every log and every answer, a failure is reported exactly if the request is refused unasked, or the read failed, the log is neither the reservation nor the sanitize log, and the failure is not a negative code with error number zero; and nothing but a failure exactly if it is refused, or the code is negative, not hidden and has an error number |
| NVMeMi.OtherFailuresReportedExactly | src/NVMeMi.cpp:313-345 | the other checked operations complete once, with a failure exactly unless the code is negative and the error number zero |
| NVMeMi.ErrorSays | src/NVMeMi.cpp:313-345 | an error carries the system's number exactly for a negative code (22 for a refused log), and "bad message" for a positive code or a failed port read; the security operations go by number and excess alone |
| NVMeMi.SuccessDelivers | src/NVMeMi.cpp:313-351 | a command that succeeded completes once, and with exactly what the drive answered: its controllers, capability, selected port, health, SMART byte or sanitize page |
| NVMeMi.FailedSanitizeReadLooksGood | src/NVMeMi.cpp:855-871 | any failed read of the sanitize log is delivered as a successful page saying "never sanitized" |
| NVMeMi.ReadPorts | src/NVMeMi.cpp:190-216 | the loop over ports computes the selection |
| NVMeMi.SelectPortSelects | src/NVMeMi.cpp:192-220 | the selection is the lowest PCIe port, or the last port if none is, provided every read up to it succeeds |
| NVMeMi.PortErrorExactly | src/NVMeMi.cpp:195-209 | an error is reported exactly if a read fails before the selection |
| NVMeDrive.NVMeDevice.constructor | src/NVMeDevice.cpp:33-55 | a new drive talks to the eight-bit endpoint it is given and is functional, OK, filed under the default location, with five fields left as memory had them |
| NVMeDrive.NVMeDevice.Consistent | src/NVMeDevice.cpp:142-741 | a valid drive object satisfies the health, SMART and sanitize invariants |
| NVMeDrive.NVMeDevice.Initialize | src/NVMeDevice.cpp:306-318 | presence is withdrawn and one scan issued |
| NVMeDrive.NVMeDevice.ScanReplied | src/NVMeDevice.cpp:313-331 | an error or an empty list makes the drive absent; otherwise it is present, uses the last controller (`DeviceTrace.PresencePublished`) and is identified |
| NVMeDrive.NVMeDevice.IdentifyReplied | src/NVMeDevice.cpp:218-284 | failures are retried through the shared counter, then given up with the counter at zero; success records the sanitize capability, bit by bit as `DeviceTrace.CapabilitiesPublished` says; the link query follows |
| NVMeDrive.NVMeDevice.PortReplied | src/NVMeDevice.cpp:286-304 | both speeds are published or left alone, and polling starts either way |
| NVMeDrive.NVMeDevice.TimerExpired | src/NVMeDevice.cpp:463-589 | an absent drive is initialised again; during a sanitize only its log is read and the timer re-armed; otherwise health and SMART are read |
| NVMeDrive.NVMeDevice.HealthReplied | src/NVMeDevice.cpp:567-585 | life used and left, and the functional state, follow the reply |
| NVMeDrive.NVMeDevice.SmartReplied | src/NVMeDevice.cpp:587-661 | the reply is handled by the change-triggered publisher, which sets flags, text and level as `DeviceTrace.SmartPublished` and `DeviceTrace.HealthLevelExactly` say, and the timer is re-armed, also on errors |
| NVMeDrive.NVMeDevice.SetStatus | src/NVMeDevice.cpp:335-363 | health and associations are set together, the list being the one function of health, path and location |
| NVMeDrive.NVMeDevice.SetFunctional | src/NVMeDevice.cpp:365-389 | only a change publishes state, and only a loss logs a failure |
| NVMeDrive.NVMeDevice.RefreshAssociations | src/NVMeDevice.cpp:142-161 | the rebuilt list is that same function exactly if the drive has an association of its own |
| NVMeDrive.NVMeDevice.GenerateRedfishEventBySmart | src/NVMeDevice.cpp:391-439 | one entry for each defined warning bit, in the order that `DeviceTrace.LogExactly` gives by the bits themselves |
| DeviceProperties.InjectionShown | include/NVMeDevice.hpp:144-168 | an injected fault publishes nothing, through any stretch of other actions, until the next SMART reply, which, with the two reserved bits clear, publishes the injected value or the drive's bit |
| NVMeDrive.NVMeDevice.UpdateProgressPercent | src/NVMeDevice.cpp:441-461 | the percentage and the elapsed estimate move on together, or the division traps and nothing is written |
| NVMeDrive.NVMeDevice.SanitizeLogReplied | src/NVMeDevice.cpp:488-561 | a verdict closes the operation as `DeviceTrace.VerdictPublishes` says, an in-progress page advances the estimate that matches erase method and flag (`DeviceTrace.InProgressPage`), anything else only re-arms the timer |
| NVMeDrive.NVMeDevice.SanitizeReplied | src/NVMeDevice.cpp:665-740 | a success opens the operation with a fresh estimate, a failure ends it |
| NVMeDrive.NVMeDevice.EraseDrive | src/NVMeDevice.cpp:674-741 | an erase is refused while one is in progress, ignored if unsupported, and otherwise issues one sanitize of the method asked for (`DeviceTrace.EraseStartsExactly`) |
| NVMeDrive.NVMeDevice.HandleReply | src/NVMeDevice.cpp:218-741 | each reply reaches the handler its command was given, and takes a valid object by the machine's step to a valid one |
| DeviceProperties.HealthConsistent | src/NVMeDevice.cpp:335-389 | in every reachable state associations are the function of health, path and location (default if empty), functional and fault state mirror the drive's, and failure entries count the true-to-false edges of the health replies |
| DeviceProperties.CriticalExactly | src/NVMeDevice.cpp:335-389 | in every run health is Critical exactly if the drive is not functional and no changed SMART reading has come since it failed |
| DeviceProperties.CriticalLeftExactly | src/NVMeDevice.cpp:646-656 | Critical is left exactly by a functional health reply or by a changed SMART reading |
| ManagerSchedules.FailureMasked | src/NVMeDevice.cpp:646-656 | a run of the whole program in which a failed drive is published as OK |
| DeviceProperties.SmartEntriesCounted | src/NVMeDevice.cpp:391-439 | over every run, with injections anywhere, the entries of each defined bit count the readings that differ from their predecessor and have it set |
| DeviceProperties.SmartPublishesExactly | src/NVMeDevice.cpp:601-656 | after a successful SMART reply the published flags and text are those computed directly from drive bits or injected bits, exactly if some effective reading so far was not 0xff |
| DeviceProperties.SmartPublishesDirect | src/NVMeDevice.cpp:601-656 | so always when the two reserved bits are clear |
| ManagerSchedules.FirstReadingLost | src/NVMeDevice.cpp:601-656 | a run in which a first reading of 0xff publishes nothing |
| DeviceProperties.InjectedBits | src/NVMeDevice.cpp:601-624 | the flags of the combined byte are drive bit or injected bit for each fault, and the upper three bits stay the drive's |
| DeviceProperties.InfoConsistent | src/NVMeDevice.cpp:286-304 | over every run of sound port pages the published current speed never exceeds the maximum, and life used and left agree |
| DeviceProperties.SanitizeConsistent | src/NVMeDevice.cpp:441-461 | in every reachable state an operation in progress is published as one, the estimate after k in-progress replies is 5k mod 2^32, and 100 is only ever written together with Completed |
| DeviceProperties.InProgressPublishes | src/NVMeDevice.cpp:522-561 | in every run the (k+1)-th in-progress reply publishes the percentage of 5(k+1) seconds, modulo 2^32, under the estimate it carries |
| DeviceProperties.ProgressGrows | src/NVMeDevice.cpp:441-461 | within one operation and under one estimate a later in-progress reply never publishes less while the hundredfold time fits 32 bits |
| DeviceProperties.HaltsExactly | src/NVMeDevice.cpp:441-449 | the program traps exactly on an in-progress page whose matching estimate is zero, or on a reply without error and without the data its handler reads |
| ManagerSchedules.ZeroEstimateTraps | src/NVMeDevice.cpp:441-449 | a run that traps on a zero estimate |
| DeviceProperties.StartsAtZeroExactly | src/NVMeDevice.cpp:665-672 | an acknowledged sanitize starts with progress zero exactly if it was zero, that is, if the last value written was, or none has been |
| ManagerSchedules.StaleHundred | src/NVMeDevice.cpp:665-672 | a run, from the start of the program, in which a new operation starts with the old one's 100 percent published |
| DeviceProperties.NodmmasNeverSet | include/NVMeDevice.hpp:106-113 | in every run the flag keeps its initial value until the first identify reply is taken over and is zero from then on |
| DeviceProperties.NodmmasMeantExactly | include/NVMeDevice.hpp:106-113 | after an identify the flag says what bit 31 of the capability says exactly if that bit is clear |
| DeviceTrace.HealthPublished | src/NVMeDevice.cpp:567-585 | in every run the functional and fault states are bit 5 of the last health reply's status, the text of the life used reads back as its figure, and the life left is 100 less it, or zero |
| DeviceTrace.PortPublished | src/NVMeDevice.cpp:286-304 | in every run both speeds are those of the last port page |
| DeviceTrace.PresencePublished | src/NVMeDevice.cpp:306-333 | in every run a drive is published as present exactly if its last scan found a controller, and talks to the last controller of the last scan that found any |
| DeviceTrace.CapabilitiesPublished | src/NVMeDevice.cpp:266-282 | in every run overwrite, block erase and crypto erase are published exactly if bit 2, 1 or 0 of the last identify reply is set, each at most once, and nothing before the first |
| DeviceTrace.EraseStartsExactly | src/NVMeDevice.cpp:674-741 | in every run an erase issues one sanitize of its own method exactly if none is in progress and that method's bit is set in the last identify reply, and otherwise nothing |
| DeviceTrace.OperationFollowsAck | src/NVMeDevice.cpp:665-672 | in every run the method in progress is that of the last acknowledged sanitize, and the elapsed estimate five seconds for each in-progress page since, modulo 2^32 |
| DeviceTrace.VerdictPublishes | src/NVMeDevice.cpp:500-522 | in every run a sanitize log whose low three bits are 1 or 4 publishes Completed, 100 and no progress; 3 publishes Failed and 0; any other but 2 leaves all three alone |
| DeviceTrace.InProgressPage | src/NVMeDevice.cpp:522-561 | in every run after an acknowledgement an in-progress page publishes the percentage of the time since then under the one field of the page that belongs to the acknowledged method, and traps exactly if that is zero; the no-deallocate fields count only before the first identify reply |
| DeviceTrace.OperationPublished | src/NVMeDevice.cpp:485-741 | in every run status and progress flag are what the last acknowledgement, refused sanitize or verdict says |
| DeviceTrace.SmartPublished | src/NVMeDevice.cpp:587-656 | in every run, once some effective reading was not 0xff, the flags are bits 4, 1, 2, 3 and 0 of the last one and the text reads back as its value; the entries of each bit and the failure entries are counted from the replies |
| DeviceTrace.HealthLevelExactly | src/NVMeDevice.cpp:335-389 | in every run health is Warning exactly if what last set it was a changed effective reading other than zero, OK exactly if it was one of zero, a return to functional or the construction, and Critical exactly if it was a loss |
| DeviceTrace.LogExactly | src/NVMeDevice.cpp:365-439 | in every run the log is, in order, one failure entry for each loss and, for each changed effective reading, one entry for each of its bits 5, 4, 0, 2, 3, 1 |
| DeviceTrace.IssuesExactly | src/NVMeDevice.cpp:218-663 | command by command, which steps issue it, each at most once, and which steps re-arm the timer |
| DeviceTrace.ParseDecimal | src/NVMeDevice.cpp:577-645 | the decimal texts published read back as the numbers they were made from, with digits only and no leading zero |
| Progress.ElapsedIs | src/NVMeDevice.cpp:448 | k additions of the poll interval give 5k mod 2^32 |
| Progress.PercentBounded | src/NVMeDevice.cpp:448-459 | at most 99 for every positive end time, wrap-around included, and a trap exactly for zero |
| Progress.PercentExact | src/NVMeDevice.cpp:448-459 | the percentage is min(99, floor(100 t / end)) exactly while 100 t fits 32 bits or the end time has passed |
| Progress.PercentMonotone | src/NVMeDevice.cpp:448-459 | it does not fall for a fixed end time while the product fits |
| Progress.FallsExactly | src/NVMeDevice.cpp:448-459 | from one poll to the next the percentage falls exactly if the product wraps before the end time after reaching it, or the clock wraps after the end time and restarts before it |
| Progress.WrapFallsBack | src/NVMeDevice.cpp:448-449 | it falls from 85 to 0 at an elapsed time that a number of polls does reach |
| LinkSpeed.GetMaxLinkSpeed | src/NVMeDevice.cpp:181-195 | the halving loop gives 2^(h+1) per lane for the highest supported bit h below 5, one per lane if there is none |
| LinkSpeed.GetCurrLinkSpeed | src/NVMeDevice.cpp:197-216 | the halving loop gives 2^s per lane for s in 1..5, nothing for an inactive link |
| LinkSpeed.CurrentWithinMaximum | src/NVMeDevice.cpp:181-216 | a supported negotiated link is never faster than the maximum, and equally fast exactly at the top in both |
| LinkSpeed.CurrentExactly | src/NVMeDevice.cpp:198-216 | the published current speed is 2^s per lane exactly for s in 1..5 or without lanes |
| LinkSpeed.MaximumExactly | src/NVMeDevice.cpp:181-196 | the published maximum is 2^h per lane for the highest bit h of the whole vector exactly if that is at most the fifth or there are no lanes |
| LinkSpeed.UnknownSpeed | src/NVMeDevice.cpp:181-216 | unknown speeds come out as one per lane; a sixth-generation link as 4 against a maximum of 128 |
| ManagerFlow.PartsRun | src/NVMeMi.cpp:106-128 | inside the whole program the worker runs its protocol and the drive its machine, and no stop flag is set |
| ManagerFlow.ExecutedInRequestOrder | src/NVMeMi.cpp:106-128 | commands are accepted and executed in the order in which the main thread requested them |
| ManagerFlow.FinishFlight | src/NVMeMi.cpp:882-912 | an executed command stays in flight as its callbacks: nothing issued is lost on the way |
| ManagerOrder.CallbacksInOrder | src/NVMeMi.cpp:882-912 | in every run the callbacks posted are the concatenated completions of the executed commands, and those handled are a prefix, the rest being queued |
| ManagerOrder.CallbacksExactly | src/NVMeMi.cpp:882-912 | each executed command has posted exactly its completions, one, or two exactly for a positive log code; an unexecuted one none |
| ManagerOrder.CallbacksSorted | src/NVMeMi.cpp:121-128 | callbacks come in execution order, each with one of its command's replies |
| ManagerOrder.CallbacksInRequestOrder | src/NVMeMi.cpp:121-128 | no callback overtakes that of an earlier request |
| ManagerOrder.NoStaleVerdict | src/NVMeDevice.cpp:485-522 | a sanitize log handled while an operation is in progress was read after the worker had executed the sanitize whose callback last set it in progress, which succeeded or failed without an error number; a verdict in the log is the page the drive returned with code zero |
| ManagerOrder.AcknowledgedExactly | src/NVMeMi.cpp:618-650 | a sanitize is taken as acknowledged exactly if its code is zero, or negative with error number zero |
| ManagerSchedules.SilentFailureAcknowledged | src/NVMeDevice.cpp:674-741 | a run in which a sanitize that failed without an error number sets the drive in progress |
| ManagerOrder.VerdictIsRead | src/NVMeDevice.cpp:503-522 | a verdict is never taken from the page that stands in for a failed read |
| ManagerProperties.DriveStaysConsistent | src/NVMeDevice.cpp:335-461 | the drive's health, SMART and sanitize invariants hold in every interleaving of the whole program |
| ManagerProperties.PollLoopNeverDies | src/NVMeDevice.cpp:218-333 | under every interleaving of overlapping initialisations a present drive has an outstanding continuation unless the program has trapped, at most one timer wait is live, and the retry count is at most 3 |
| ManagerProperties.ContinuationEndsExactly | src/NVMeDevice.cpp:316-331 | a continuation is used up without starting another exactly by a scan that finds no controller, or by a trap |
| ManagerSchedules.FirstScanFailsForGood | src/NVMeDevice.cpp:316-325 | a run in which the first scan fails and the program then rests with nothing in flight and no timer armed |
| ManagerProperties.IdentifyDecreases | src/NVMeDevice.cpp:218-244 | 4 chains + (3 - retry) falls at every identify reply, and only a successful scan adds a chain |
| ManagerProperties.IdentifyRepliesBounded | src/NVMeDevice.cpp:218-244 | in every run fewer than four identify replies per successful scan |
| ManagerProperties.ChainsBounded | src/NVMeDevice.cpp:218-244 | from any state to the next successful scan at most the bound, hence at most 4 - retry for one chain, and at most three before a second scan of a fresh drive succeeds |
| ManagerProperties.SanitizeWindow | src/NVMeDevice.cpp:485-565 | from an acknowledgement with no other sanitize unanswered until a verdict is handled: in progress and published so, no sanitize in flight, no health, SMART or sanitize command issued, every erase refused |
| ManagerProperties.ProgressEndsExactly | src/NVMeDevice.cpp:488-522 | a step ends the operation exactly if it handles a verdict (success, no-deallocate success, failed) or a failed sanitize request |
| ManagerCommands.CommandsConserved | src/NVMeMi.cpp:106-128 | in every run of the program the commands the drive's handlers have issued are those executed followed by those on their way, each once and in the order issued, and without an endpoint none gets that far |
| ManagerCommands.ErasesCarriedOut | src/NVMeDevice.cpp:674-741 | in every run the methods of the sanitizes executed and on their way are those of the accepted erase calls, one for each and in order |
| ManagerCommands.AcknowledgedAsAsked | src/NVMeDevice.cpp:665-741 | while an operation is in progress its method is that of the accepted erase call with the same number as the executed sanitize whose acknowledgement came last |
| ManagerCommands.VerdictHandled | src/NVMeDevice.cpp:500-522 | in every run of the program a sanitize log handled by the main loop publishes what its low three bits say |
| ManagerSchedules.SecondEraseEndsFirst | src/NVMeDevice.cpp:674-741 | a run in which a second erase, accepted before the first was acknowledged, fails and ends the first one's operation |
| ManagerSchedules.OrderlyIsASchedule | src/NVMeMi.cpp:73-128 | every sequence of whole posts, whole command executions, handled items, expiries and calls is realised by a run of the interleaved program |
| ManagerRest.RestsExactly | src/NVMeMi.cpp:73-88 | left to itself the program stops moving exactly if the worker waits, all is posted and handled, and no timer is armed |
| ManagerRest.RestMeansLostWakeup | src/NVMeMi.cpp:73-88 | the commands then left behind are exactly those whose notification was missed, and if the drive is present and the program has not trapped one of them is what polling waits for |
| ManagerRest.NextCommandFrees | src/NVMeMi.cpp:106-119 | the next command posted, of any drive, makes the worker execute everything left behind |
| ManagerRest.FirstScanCanStall | src/NVMeMi.cpp:73-79 | a schedule in which a drive's first scan is left behind for good |
| Discovery.CountWanted | include/MCTPDiscovery.hpp:163-173 | the counting loop, with its eight-bit counter |
| Discovery.KeysOf | include/MCTPDiscovery.hpp:182-190 | the fetches started for a path are its requested interfaces |
| Discovery.Collect | include/MCTPDiscovery.hpp:156-192 | the loop over the mapper's answer starts exactly the fetches of the paths that pass the filter, up to the first path without a service |
| Discovery.SpawnedExactly | include/MCTPDiscovery.hpp:156-192 | a path and interface are fetched exactly if some entry with that path, reached without meeting one without a service, passes the filter and offers the interface, and it is requested |
| Discovery.FilterExactly | include/MCTPDiscovery.hpp:163-178 | for all inputs a path passes exactly if fewer than 256 interfaces are requested and repeated matches, missing interfaces and repeated requests cancel modulo 256 |
| Discovery.SubsetTestExactly | include/MCTPDiscovery.hpp:163-178 | exactly when the comparison agrees with the subset test |
| Discovery.CountingIsSubset | include/MCTPDiscovery.hpp:163-190 | without duplicates a path passes exactly if fewer than 256 are requested and it offers them all, and then exactly the requested interfaces are fetched once each |
| Discovery.TooManyToCount | include/MCTPDiscovery.hpp:163-178 | a path that offers exactly the 256 interfaces requested is passed over |
| Discovery.DuplicatesFool | include/MCTPDiscovery.hpp:163-178 | with duplicates the counter passes a path that lacks an interface |
| ObjectGetter.GetObjects.MapperReplied | include/MCTPDiscovery.hpp:132-192 | the mapper's answer starts the fetches, backs off or gives up, and lets go of its reference |
| ObjectGetter.GetObjects.FetchReplied | include/MCTPDiscovery.hpp:91-117 | a fetch stores its data, backs off or gives up, and lets go of its reference unless it backs off |
| ObjectGetter.GetObjects.FetchTimerDone | include/MCTPDiscovery.hpp:102-113 | the back-off ends with another attempt and one retry less, or with a timer error |
| ObjectGetter.GetObjects.DropReference | include/MCTPDiscovery.hpp:198-201 | the last release, and no other, runs the callback |
| ForkJoin.RunKeepsInv | include/MCTPDiscovery.hpp:79-201 | in every run the reference count is the number of holders, the collected data is that of successful fetches, and attempts plus retries left is six |
| ForkJoin.DeliversExactlyOnce | include/MCTPDiscovery.hpp:198-201 | the callback has run once exactly if creator, mapper call and every fetch have settled, and otherwise not at all |
| ForkJoin.DeliversSuccesses | include/MCTPDiscovery.hpp:79-120 | the delivered map holds the successful fetches and nothing else; every fetch succeeded, met a timer error, or gave up after exactly six attempts |
| ForkJoin.DeliversExactly | include/MCTPDiscovery.hpp:116 | with distinct keys a fetch's data is delivered exactly if it succeeded |
| ForkJoin.FetchesAreSpawned | include/MCTPDiscovery.hpp:156-192 | in every run the fetches are those the accepted answer gives rise to, and none without one |
| ForkJoin.MapperAskedExactly | include/MCTPDiscovery.hpp:122-150 | in every run the mapper is asked once and again after each failure, up to the retries asked for or five, and is given up without an answer exactly if all of these failed or a back-off timer reported an error |
| ForkJoin.DeliversFromAnswer | include/MCTPDiscovery.hpp:79-201 | for an answer with distinct paths and no interface listed twice: a key is fetched exactly as the answer says, by one fetch, and delivered with its data exactly if that succeeded; without an answer the delivered map is empty |
| ForkJoin.SpawnedDistinct | include/MCTPDiscovery.hpp:156-192 | distinct paths with duplicate-free interfaces give distinct keys |
| ForkJoin.StepLowersWork | include/MCTPDiscovery.hpp:79-122 | every reply, timer or release lowers a lexicographic measure |
| ForkJoin.NotStuck | include/MCTPDiscovery.hpp:79-201 | until everything has settled something can still happen |
| Drives.DriveManager.HandleMctpEndpoints | src/NVMeDeviceMain.cpp:119-197 | no drive is replaced or touched; a key is new exactly if some object names a number with that low byte, lists message type 4 and has no socket or I2C interface without its property; and the new drive is freshly built from the first such object, for its number and its bus, or bus 0xFFFFFFFF if it names none |
| Drives.DriveManager.HandleEmEndpoints | src/NVMeDeviceMain.cpp:17-99 | a completed round leaves the map alone and takes each valid drive through the calls that the objects hand to it, to where they place it, and through exactly one initialisation |
| DriveMap.AddAllFirst | src/NVMeDeviceMain.cpp:176-193 | a new drive belongs to the first usable endpoint with its key |
| DriveMap.KeysExactly | src/NVMeDeviceMain.cpp:124-193 | a key is new after a round exactly if some object is usable for it, by its own properties |
| DriveMap.MadeFromFirst | src/NVMeDeviceMain.cpp:124-193 | a new drive is made from the number and bus of the first object usable for its key |
| DriveMap.OtherTypePassedOver | src/NVMeDeviceMain.cpp:141-163 | an endpoint that lists another message type only gets no drive |
| DriveMap.Idempotent | src/NVMeDeviceMain.cpp:176-197 | handling the same endpoints again, in any order, changes nothing |
| DriveMap.OwnDriveExactly | src/NVMeDeviceMain.cpp:176-193 | after a round the drive under an endpoint's key was made from it exactly if it came first with that key, talks to it exactly if its number is below 256, and is its own exactly if both |
| DriveMap.LowByteShared | src/NVMeDeviceMain.cpp:176-193 | numbers 1 and 257 make one drive |
| DriveMap.HighNumberMissed | src/NVMeDeviceMain.cpp:176-193 | endpoint 257 alone gets a drive that talks to endpoint 1 |
| DriveMap.SmallNumbersNeverShare | src/NVMeDeviceMain.cpp:124-193 | below 256 every endpoint has its own drive, made from it and talking to it |
| DriveMap.RoundIsCalls | src/NVMeDeviceMain.cpp:76-98 | a round is, for each drive, a stretch of a run of the drive machine ending in one initialisation |
| DriveMap.HandsIs | src/NVMeDeviceMain.cpp:76-90 | an object calls the drives of a bus exactly if it is an NVMe item that lacks neither the bus of its I2C device nor its form factor, that bus is held, and so is an association, and then files them there |
| DriveMap.ContainingExactly | src/NVMeDeviceMain.cpp:54-73 | by index: the association taken is the last of kind "containing", and none exactly if there is none |
| DriveMap.BusHeldExactly | src/NVMeDeviceMain.cpp:24-41 | the bus held is that of the last NVMe item naming one, and 2^64 - 1 before any |
| DriveMap.AssociationHeldExactly | src/NVMeDeviceMain.cpp:51-73 | the association held is the last "containing" one of the last object that is not passed over and has one, and empty before any |
| DriveMap.AssociationCarriedExactly | src/NVMeDeviceMain.cpp:23-90 | an object files only drives of its own bus and under its own association, exactly unless it names no bus while one is held and hands something on, or has no association while one is held |
| DriveMap.PlacedIs | src/NVMeDeviceMain.cpp:77-90 | the last object that reaches a bus with an association decides |
| DriveMap.PlacedElsewhere | src/NVMeDeviceMain.cpp:77-90 | a drive on a bus that no object reaches keeps its state |
| DriveMap.ChassisLeaks | src/NVMeDeviceMain.cpp:23-90 | a drive filed under the chassis of the object before its own |
| DriveMap.BusLeaks | src/NVMeDeviceMain.cpp:24-90 | a drive filed under the chassis of a later object that names no bus |

## Left out

- D-Bus properties are taken to start with no operation and no progress, as the interfaces declare them.
- D-Bus properties, signals, object paths and log transport: published values are fields, log entries a list.
- libnvme and its byte layouts: each executed command has an arbitrary answer; a failed log read is taken to leave the zero-filled buffer as it was.
- `adminFwCommit`: it bypasses the worker and nothing calls it.
- Payloads of transfers and security commands, and the immediate refusal of an over-long security receive.
- The `catch` branches after `post`: by `StopFindsNothing` they are unreachable.
- Form factor, manufacturer, capacity and other strings taken from replies: table lookups.
- Telemetry log sizing: one formula.
- The two-second sleep, the one-second filter timer of `main`, ten-second and five-second durations, and hotplug removal: time is only the order of events.
- Timer errors other than cancellation in the poll loop; values of the wrong type in D-Bus properties, which throw.
- Weak memory, handlers on several main threads, and the worker's destructor on its own thread: steps are sequentially consistent, and destructors run on a thread outside.
- WorkerProtocol.JoinReturnsExactly: says what becomes of the worker left alone; a caller that enters `post` meanwhile is refused and only delays it, and the destructor's own caller is outside the model.
- External writes to D-Bus properties other than the fault setters and `erase`; the number of overwrite passes.
- NVMeDrive.NVMeDevice.HandleReply: covers the commands that a drive issues, so of the logs only SMART and sanitize.
- The two completions of a log request, and the end of its command, are one step of the worker; in the program another item of the main loop may come between the two.
- A null pointer that a handler follows is taken to trap, where the language leaves it undefined.
- The order inside one handler: the drive's fields are updated before its commands are posted. Nothing else on the main thread runs in between.
- Manager: other drives appear only as foreign commands through the same worker and main loop; the main loop's queue is a value, for the program has no object of its own for it.
- WorkerSharing.WorkerMap.CreateEndpoint: whether the map's weak reference has expired is a parameter, tied to the live owners; the reference counts behind it belong to the C++ library.
- The default sanitize time is a build option, taken at its default of 30.
- The drive's fields are grouped into four records inside `NVMeDevice`, and its uninitialised fields come from a `Garbage` value.
