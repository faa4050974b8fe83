# Verified model of the Longhorn instance manager's process manager

The process manager keeps a map from names to processes and a shared pool of ports. Creates,
deletes, replaces and background unregister workers change both in separate critical sections;
every process runs goroutines of its own that write its state; updates go over rendezvous
channels to a monitor and from there to a broadcaster. This project models all four as transition
systems whose actions are the critical sections (and the unlocked reads and writes) of the code,
interleaving freely, and proves what holds in every run. Objects that the code updates in place
are classes here, and their methods are proved to carry out the actions.

| files | content |
|---|---|
| `Text`, `PortRange`, `VolumeName` | splitting and joining, port range parsing, process and volume names |
| `PortPool`, `Bitmap` | the port bitmap: its search on values, and the object with its loops |
| `Registry`, `RegistryInvariant`, `RegistryPool`, `RegistrySteps` | the registry protocol, its invariant, and that every action keeps it |
| `RegistryTheorems`, `RegistryEvents`, `RegistryOrder`, `RegistryRuns` | what follows for every run, the order of every call's steps, and runs that show what can happen |
| `PortArgs`, `Manager` | port arguments; the manager object, tied to the registry protocol |
| `Lifecycle`, `LifecycleTheorems`, `StopOrder`, `KillTiming`, `Process` | one process and its goroutines, the order of a stop's steps, when it kills; the process object |
| `System`, `SystemTheorems`, `SystemOverlap`, `SystemRuns` | registry and processes together |
| `Broadcast`, `BroadcastTheorems`, `Broadcaster` | the fan-out, and the broadcaster object |
| `Watch` | registry and fan-out together |
| `Locks`, `LockScripts`, `LockVisible` | locks, lock order, rendezvous channels, and the routines that use them |

A run is a sequence `tr` of states with the actions `acts` between them; theorems quantify over all
runs and all points in them. Process identities are creation numbers, hence distinct, as UUIDs are
meant to be. The histories kept in the states (`h`, `missed`, `closes`, ...) are written but never
read by the actions.

## Findings

Where a property one would expect of the code does not hold, the code is modelled as it is; there is
a run that shows it, and the exact condition under which the property does hold.

- The bitmap's search loses the first position of the run behind one that was too short, so a
  request can be refused although the pool has room: `RegistryRuns.RefusedThoughFree` is such a run,
  in every pool with four ports or more above port 0. Which requests are refused is `PortPool.AllocateRefusesIff`;
  one port of slack, or asking for one port, always suffices (`PortPool.SlackSuffices`).
- A port range of 2^31 ports or more is accepted, and the size of its bitmap becomes negative or 0. That
  is so exactly if the span does not fit 31 bits (`PortPool.NewPoolSoundIff`). Such a bitmap grants
  without looking, never frees anything (`PortPool.OverflownNeverFrees`) and comes to grant a port twice;
  with all 2^32 ports it refuses every request (`PortPool.OverflownGrantsTwice`).
- The range (0,0) means "no ports", and negative ports cannot be released: given back ports are lost
  for some run exactly if the pool begins at port 0 or below (`RegistryEvents.NothingLeaksAboveZero`,
  `RegistryEvents.SomethingLeaksOtherwise`).
- A replace keeps the ports it reserved for good exactly if its binary is that of the process it was
  to replace (`RegistryRuns.AbandonedIff`, `RegistryEvents.AbandonedForGood`); a run in every pool is
  `RegistryRuns.SameBinaryAbandons`.
- Stopped and Error are final exactly once the probe can no longer write
  (`LifecycleTheorems.EndedForGoodIff`). Error can moreover be overwritten with Stopped by a stop
  worker that acts on a stale read (run: `LifecycleTheorems.StaleWriteHidesError`), and by nothing
  else (`LifecycleTheorems.ErrorStays`).
- A kill can come sooner than 60 s after the first stop that took effect, since the time is read before
  the lock is taken (run: `KillTiming.KillTooSoonAfterFirstStop`). In which states that can still happen
  is `KillTiming.KilledEarlyIff`. It never comes sooner than 60 s after the earliest deletion timestamp
  (`LifecycleTheorems.KillsWait`).
- A delete between the registration and the start of a process can remove it and free its ports, after
  which it is started and runs unregistered (`SystemTheorems.DeletedBeforeStartRuns`). A process to be
  unregistered is ended for good exactly if it has ended and its probe is through
  (`SystemTheorems.EndedForGoodIff`); the worker looks only at the former.
- Ports are exclusive among their holders, but not among processes that have not ended. Some creates
  make two such processes have a port in common exactly if one of them already has a port that is free,
  or that another one has (`SystemOverlap.OverlapByCreatesIff`). One of the two had then been displaced by
  a swap, or cleaned up as a failed replacement, or removed by a worker while its probe was pending
  (`SystemOverlap.OverlapExplained`); for each of the three there is a run
  (`SystemRuns.OverlapAfterSwap`, `SystemRuns.OverlapAfterCleanup`, `SystemRuns.OverlapAfterRemoval`).
- A slow subscriber can see a gap before its channel is closed (run:
  `BroadcastTheorems.GapBeforeEviction`). A gap opens exactly when something is delivered to a subscriber
  that has room again though an eviction of it is pending, and that is not just what it missed first
  (`BroadcastTheorems.GapIff`). It lacks something exactly if an eviction is pending
  (`BroadcastTheorems.NothingMissed`).
- Releasing a range that is not of the pool can overflow 32 bits and panic, or succeed without effect
  (`PortPool.ForeignRangePanics`, `PortPool.ForeignRangeIgnored`); exactly when is
  `PortPool.ReleaseSameIn32Bits`. No range the manager releases from a sound pool does.
- `ProcessNameToVolumeName` panics exactly on names without a dash (`VolumeName.PanicsOnlyWithoutDash`).

## Model

| member | source | states |
|---|---|---|
| `Text.JoinSplit` | pkg/util/util.go:177-182 | Joining the pieces of a split gives the text back; no piece holds the separator; there is one piece more than separators. |
| `Text.SplitJoin` | pkg/util/util.go:177-182 | Splitting a join of separator-free pieces gives exactly those pieces back. |
| `PortRange.ParseRoundTrip` | pkg/process/process_manager.go:421-438 | Parsing the decimals of any two 31-bit numbers joined by a dash yields those two numbers. |
| `PortRange.ParseForgives` | pkg/process/process_manager.go:425-437 | Spaces around two numbers and plus signs before them are forgiven; numbers of more than 31 bits wrap, and of more than 63 bits are refused. |
| `PortRange.ParseRefusesOthers` | pkg/process/process_manager.go:425-437 | A text with any character but digits, signs and spaces is refused. |
| `PortRange.CopiesAgree` | pkg/util/util.go:109-126 | The two copies of the parser accept the same texts with the same results, for every text. |
| `PortRange.NegativeOnlyByTruncation` | pkg/process/process_manager.go:425-437 | An accepted text has exactly one dash, and a bound is negative exactly if the unsigned number written wraps in 32 bits. |
| `VolumeName.StripUndoesAppend` | pkg/util/util.go:177-182 | Stripping `v-x-y` gives `v` back for every `v` and all dash-free `x`, `y`. |
| `VolumeName.PanicsOnlyWithoutDash` | pkg/util/util.go:179-180 | The call panics if and only if the name has no dash. |
| `VolumeName.EngineNameStrips` | vendor/github.com/longhorn/go-common-libs/longhorn/longhorn.go:25-28 | On every engine process name the result is all before the engine infix. |
| `VolumeName.EngineNamesNeverPanic` | pkg/process/process_manager.go:167-168 | On every name that passes the engine test of the condition check the call does not panic. |
| `PortPool.NewPool` | vendor/github.com/longhorn/go-common-libs/bitmap/bitmap.go:19-36 | Fails exactly on reversed bounds; the pool is sound exactly if the span fits 31 bits, and then has every port free. |
| `PortPool.NewPoolSoundIff` | vendor/github.com/longhorn/go-common-libs/bitmap/bitmap.go:24-28 | A new pool is sound if and only if its span fits 31 bits, and has overflown otherwise, to size 0 exactly for all 2^32 ports. |
| `PortPool.OverflownNeverFrees` | vendor/github.com/longhorn/go-common-libs/bitmap/bitmap.go:107-112 | No release frees anything in a pool that has overflown. |
| `PortPool.OverflownGrantsTwice` | vendor/github.com/longhorn/go-common-libs/bitmap/bitmap.go:38-42 | Every pool that has overflown grants a port twice after three requests, or, at size 0, refuses every request. |
| `PortPool.AllocateTakesFree` | vendor/github.com/longhorn/go-common-libs/bitmap/bitmap.go:72-94 | What is allocated is exactly as many adjacent ports of the pool as asked for, all free before; those and no others become taken. |
| `PortPool.SearchRefusesIff` | vendor/github.com/longhorn/go-common-libs/bitmap/bitmap.go:38-70 | One pass finds nothing if and only if every maximal free run is too short or exactly fitting and shadowed. |
| `PortPool.AllocateRefusesIff` | vendor/github.com/longhorn/go-common-libs/bitmap/bitmap.go:80-88 | A request is refused if and only if every run is useless to both passes. |
| `PortPool.SlackSuffices` | vendor/github.com/longhorn/go-common-libs/bitmap/bitmap.go:80-88 | One adjacent free port more than asked for (none more for a single port) guarantees success, from any resume position. |
| `PortPool.AllocateGrantsIff` | vendor/github.com/longhorn/go-common-libs/bitmap/bitmap.go:80-93 | What is granted is the first useful run from the resume position on, and only if there is none, the first from the bottom; the next scan resumes behind it. |
| `PortPool.GrantIsNext` | vendor/github.com/longhorn/go-common-libs/bitmap/bitmap.go:80-83 | Compared with all other places: what is granted lies between the resume position and any place behind it with room and a port of slack. |
| `RegistryRuns.RefusedThoughFree` | vendor/github.com/longhorn/go-common-libs/bitmap/bitmap.go:53-66 | Without the slack: from every initial state with four ports or more above port 0, a run of creates and deletes after which a create is refused although the pool has that many adjacent free ports. |
| `PortPool.ReleaseUndoesAllocate` | vendor/github.com/longhorn/go-common-libs/bitmap/bitmap.go:96-114 | Releasing what was just allocated restores the free ports if and only if it was not the single port 0. |
| `PortPool.ReleaseSameIn32Bits` | vendor/github.com/longhorn/go-common-libs/bitmap/bitmap.go:107-112 | Computed in 32 bits, a release frees exactly the given in-range ports or refuses, if and only if no difference to the base overflows in a way that shows. |
| `PortPool.ForeignRangePanics` | vendor/github.com/longhorn/go-common-libs/bitmap/bitmap.go:107-112 | In every sound pool that begins below port 0, but not at the least 32-bit number, releasing port 0 to the last panics. |
| `PortPool.ForeignRangeIgnored` | vendor/github.com/longhorn/go-common-libs/bitmap/bitmap.go:107-112 | In every sound pool that begins at the least number, a foreign range is released without error or effect. |
| `Bitmap.NewBitmap` | vendor/github.com/longhorn/go-common-libs/bitmap/bitmap.go:19-36 | An error exactly on reversed bounds; otherwise an object that is the new pool, its size computed in 32 bits. |
| `Bitmap.ReadRun` | vendor/github.com/longhorn/go-common-libs/bitmap/bitmap.go:43-60 | The inner loop finds the fit of the pass, or goes on at a place from which the pass has the same answer, or has shown there is none. |
| `Bitmap.Bitmap.FindAt` | vendor/github.com/longhorn/go-common-libs/bitmap/bitmap.go:38-70 | The nested loops compute the pass over the list of maximal free runs; in a bitmap that has overflown, the position asked for. |
| `Bitmap.Bitmap.FindRange` | vendor/github.com/longhorn/go-common-libs/bitmap/bitmap.go:80-88 | Both passes together find the positions the pool, sound or overflown, would take. |
| `Bitmap.Bitmap.AllocateRange` | vendor/github.com/longhorn/go-common-libs/bitmap/bitmap.go:72-94 | Answers as the pool does, sound or overflown, and becomes the pool it leaves; a refusal changes nothing. |
| `Bitmap.Bitmap.ReleaseRange` | vendor/github.com/longhorn/go-common-libs/bitmap/bitmap.go:96-114 | For any 32-bit range: frees exactly the given in-range ports, nothing for (0,0), reports reversed and foreign ranges, or panics, as computed in 32 bits. |
| `RegistrySteps.StepKeeps` | pkg/process/process_manager.go:253-309 | Every critical section keeps the invariant: ports and owners agree, the registry holds exactly the registered processes under their names, history is legal; and no process loses identity or range. |
| `RegistryTheorems.InvHolds` | pkg/process/process_manager.go:184-592 | Every state of every interleaving satisfies that invariant. |
| `RegistryTheorems.PortsAreExclusive` | pkg/process/process_manager.go:400-419 | In every reachable state holders' ranges are in the pool and pairwise disjoint, a port is taken if and only if some process holds it, and free plus held ports make the pool. |
| `RegistryTheorems.FreedPortsWereHeld` | pkg/process/process_manager.go:487-494 | Whenever a port becomes free, the step is a release by a process that held that very port. |
| `RegistryTheorems.ReleasedAtMostOnce` | pkg/process/process_manager.go:587-592 | No process's ports are released twice in any run. |
| `RegistryTheorems.RefinesAtomicRegistry` | pkg/process/process_manager.go:253-304 | The interleaving refines an atomic registry: registrations, swaps and removals are the only changes, each legal when made, and replaying them gives the current map. |
| `RegistryTheorems.DisplacedOnlyOnPurpose` | pkg/process/process_manager.go:295-304 | An entry disappears only by the worker of a delete of that very process, and changes only by a swap meant for that very process. |
| `RegistryTheorems.LeavesForGood` | pkg/process/process_manager.go:523-540 | A process that has left never re-enters under any name, and no process has two entries. |
| `RegistryTheorems.OnlyOwnMoves` | pkg/process/process_manager.go:442-545 | Only a replacement's own steps move it, and none once it has returned. |
| `RegistryTheorems.FailedReplaceHasNoEffect` | pkg/process/process_manager.go:487-536 | No own step of a failed replacement changed the registry; only its last changed the pool, by its own range; if it failed before the stop it never stopped the old process. |
| `RegistryTheorems.FailedReplaceGaveBack` | pkg/process/process_manager.go:487-494 | Every failed replacement has performed that release. |
| `RegistryOrder.ReplaceInOrder` | pkg/process/process_manager.go:477-545 | In every run the steps a replacement has made are those the code has before its place: compared, started, polled up to 30 times, the old one stopped, swapped; or, having failed, stopped before its ports are given back. |
| `RegistryOrder.DeleteInOrder` | pkg/process/process_manager.go:237-308 | Likewise for a delete and its worker: stopped before it is unregistered; up to 600 looks or one that found it ended, then a last look that decides; an update after the critical section, whatever that found. |
| `RegistryOrder.CreateTakesEffectIff` | pkg/process/process_manager.go:184-270 | A create changes something if and only if name and binary are given, the name is new, and the ports can be reserved. |
| `RegistryOrder.ReplaceTakesEffectIff` | pkg/process/process_manager.go:442-562 | A replace reserves if and only if name and binary are given, the signal is SIGHUP, the name is registered, and the ports can be reserved. |
| `RegistryEvents.DeletedMeansAbsent` | pkg/process/process_manager.go:111-119 | Every broadcast says Deleted if and only if no process of that name was registered when the monitor built it. |
| `RegistryEvents.UpdatesInOrder` | pkg/process/process_manager.go:103-125 | In every run the updates broadcast, and the one in the monitor's hands, are exactly those handed over to it, in the same order. |
| `RegistryEvents.RemovalIsAnnounced` | pkg/process/process_manager.go:295-307 | Every removal's own update is still to be sent by its worker, or in the monitor's hands, or broadcast, and then says Deleted unless the name was registered again before the monitor looked. |
| `RegistryEvents.AbandonedForGood` | pkg/process/process_manager.go:482-485 | The ports of a replacement dropped for having the same binary stay taken in every continuation. |
| `RegistryRuns.AbandonedIff` | pkg/process/process_manager.go:477-485 | In every run a replacement that has compared the binaries has abandoned its ports if and only if they are the same. |
| `RegistryRuns.SameBinaryAbandons` | pkg/process/process_manager.go:477-485 | From every initial state, a run that abandons a port. |
| `RegistryEvents.NothingLeaksAboveZero` | pkg/process/process_manager.go:414-419 | If the pool begins above port 0, no port given back is ever lost. |
| `RegistryEvents.SomethingLeaksOtherwise` | pkg/process/process_manager.go:414-419 | If it begins at 0 or below, there is a run that loses one. |
| `PortArgs.AppendPortArgs` | pkg/process/process_manager.go:575-582 | The arguments end up as before, followed, for each port argument that fits and in order, by comma-free pieces that joined with commas are that argument and the decimal of its own port, and by nothing else; "cannot fit" occurs exactly with more arguments than ports, unless the range ends at the last 32-bit number. |
| `PortArgs.NamesPortIsSplit` | pkg/process/process_manager.go:580 | There is only one such list of pieces: each argument and port number, split. |
| `PortArgs.ReservedFits` | pkg/process/process_manager.go:564-573 | A granted reservation has at least as many ports as port arguments, so "cannot fit" is unreachable. |
| `PortArgs.PortArgNamesOwnPort` | pkg/process/process_manager.go:575-582 | The port in each group was free and is now taken, within the range; the group joined with commas is the argument followed by the port's decimal. |
| `PortArgs.GroupsDiffer` | pkg/process/process_manager.go:580 | The same argument for two ports yields two different groups. |
| `Manager.NewManager` | pkg/process/process_manager.go:64-101 | An error exactly if the text is no port range or its bounds are reversed; otherwise a manager over the new pool, in an initial state of the protocol if the span fits 31 bits. |
| `Manager.Manager.AllocatePorts` | pkg/process/process_manager.go:400-412 | Refuses negative counts, grants (0,0) for none, else does what the pool does, sound or overflown; no change when refused. |
| `Manager.Manager.AllocateProcessPorts` | pkg/process/process_manager.go:564-585 | Takes the ports of the reservation and extends the arguments by those pieces, each naming its own port, failing exactly if some do not fit, which in a sound pool never happens; a refusal leaves pool and arguments alone. |
| `Manager.Manager.ReleasePorts` | pkg/process/process_manager.go:414-419 | Refuses negative ports, else does what the bitmap does with any 32-bit range. |
| `Manager.Manager.ReleaseProcessPorts` | pkg/process/process_manager.go:587-592 | Never panics, and the pool afterwards is the protocol's pool after that process gave its ports back. |
| `Manager.Manager.FindProcess` | pkg/process/process_manager.go:311-316 | Finds an object exactly if the name is registered, and then the registered process. |
| `Manager.Manager.UnregisterProcess` | pkg/process/process_manager.go:272-281 | Starts a worker exactly if the process is still the one registered under its name, as the protocol does. |
| `Manager.Manager.Add` | pkg/process/process_manager.go:253-270 | Succeeds exactly if the name is free and the reservation granted, and then the map has exactly this one entry more; otherwise nothing changes. |
| `Manager.Manager.RegisterProcess` | pkg/process/process_manager.go:253-270 | The object goes from showing `s` to showing the protocol's state after registration; failure changes nothing. |
| `Manager.Manager.InitProcessReplace` | pkg/process/process_manager.go:547-562 | Likewise for the reservation of a replacement; the map is unchanged and the old process is returned. |
| `Manager.Manager.TakeOut` | pkg/process/process_manager.go:295-304 | Removes the entry and frees the ports if the entry is this process, and otherwise changes nothing. |
| `Manager.Manager.RemoveProcess` | pkg/process/process_manager.go:295-304 | The object then shows the protocol's state after the worker's removal. |
| `Manager.Manager.PutIn` | pkg/process/process_manager.go:523-540 | Enters the replacement if the name is absent or the old process's, whose ports it frees; otherwise changes nothing. |
| `Manager.Manager.SwapProcess` | pkg/process/process_manager.go:523-540 | The object then shows the protocol's state after the swap; refused exactly if another process has the name. |
| `Manager.Manager.CleanupReplacement` | pkg/process/process_manager.go:487-494 | The object then shows the protocol's state after the cleanup's release; the map is unchanged. |
| `Manager.AwaitReplacement` | pkg/process/process_manager.go:504-516 | Takes over exactly if the first state other than Starting is Running or all 30 were Starting, and ends where the protocol's program counter does. |
| `Manager.AwaitEnd` | pkg/process/process_manager.go:281-293 | Looks until it finds the process ended, up to 600 times, then once more; removes exactly if that finds it ended; look by look the program counter of the protocol's worker. |
| `Lifecycle.PotentialStep` | pkg/process/process.go:85-149 | "Probe pending" plus "not yet ending" never rises, and each stop that takes effect lowers it. |
| `Lifecycle.InvHolds` | pkg/process/process.go:50-207 | Every state of every run of a process's goroutines satisfies the lifecycle invariant. |
| `LifecycleTheorems.NeverStartingAgain` | pkg/process/process.go:50-109 | Starting is never re-entered. |
| `LifecycleTheorems.RunningEnteredOnce` | pkg/process/process.go:85-106 | Running is entered at most once in any run. |
| `LifecycleTheorems.ProbeEnds` | pkg/process/process.go:85-106 | In any run a probe that is through has either written Running, or given up, and then called for a stop exactly if the process had not ended. |
| `StopOrder.StopInOrder` | pkg/process/process.go:140-201 | In every run what a stop call and its worker have done is what the code does up to their place: lock, capture, look, signal, polls, kill, or the two reads and the write. |
| `StopOrder.SignalledThenEndedOrKilled` | pkg/process/process.go:169-200 | A stop call that is done and took effect on a running command sent one signal, and found the process ended at a poll or killed it after 600; one whose wait had timed out killed it at once; any other did nothing. |
| `LifecycleTheorems.EndedStays` | pkg/process/process.go:169-182 | Once the probe is through, Stopped or Error is absorbing under every step, the stale write included. |
| `LifecycleTheorems.PendingProbeRevives` | pkg/process/process.go:85-106 | As long as it is not, some continuation makes the process Running from any state. |
| `LifecycleTheorems.EndedForGoodIff` | pkg/process/process.go:203-207 | A process is ended in every continuation if and only if it has ended and its probe is through. |
| `LifecycleTheorems.ErrorStays` | pkg/process/process.go:176-182 | Error itself lasts if moreover no stop worker holds a stale read. |
| `LifecycleTheorems.StaleWriteHidesError` | pkg/process/process.go:176-182 | A run, with the probe through, in which a worker that holds one turns Error into Stopped. |
| `LifecycleTheorems.AtMostTwoSignals` | pkg/process/process.go:140-194 | No run sends a process more than two graceful stop signals, and no more than stops that took effect. |
| `LifecycleTheorems.KillsWait` | pkg/process/process.go:150-199 | Every kill, by polling or by timeout, comes at least 600 intervals of 100 ms after the earliest deletion timestamp. |
| `LifecycleTheorems.KillsWaitAfterFirstStop` | pkg/process/process.go:142-157 | And after the first one set, when no later one is earlier. |
| `KillTiming.KilledEarlyIff` | pkg/process/process.go:140-200 | In every reachable state after the first stop took effect: a kill can still come within the grace period after that stop if and only if that period is not over and a worker is at the kill, or the command runs or is yet to run and the timestamp in force, or one that a waiting stop call can still set, is before the first. |
| `KillTiming.KillsOnTime` | pkg/process/process.go:185-199 | From every state in which a stop has taken effect on a running command there is a continuation with a kill exactly 600 intervals of 100 ms later. |
| `KillTiming.KillTooSoonAfterFirstStop` | pkg/process/process.go:142-157 | A run with such a kill. |
| `Process.Process.Start` | pkg/process/process.go:50-109 | The object then shows the lifecycle after a start that succeeds or fails. |
| `Process.Process.RunReturned` | pkg/process/process.go:64-83 | The object then shows the lifecycle after the run goroutine's write. |
| `Process.Process.ProbeAnswered` | pkg/process/process.go:88-105 | The object then shows the lifecycle after the probe's write, whatever the state was. |
| `Process.Process.ProbeGaveUp` | pkg/process/process.go:95-98 | Calls for a stop exactly if the process has not ended, as the lifecycle's probe does. |
| `Process.Process.StopLocked` | pkg/process/process.go:140-158 | The object then shows the lifecycle after the stop's critical section; a stop is needed exactly if the process was not ending. |
| `Process.Process.IsStopped` | pkg/process/process.go:203-207 | Yes exactly if the process has ended; and it is ended in every continuation exactly if the answer is yes and the probe is through. |
| `Process.Process.MarkStopped` | pkg/process/process.go:178-180 | The object then shows the lifecycle after the worker's unlocked write. |
| `Process.AwaitEnded` | pkg/process/process.go:188-199 | Stops polling at the first answer that the process has ended, and goes on to the kill after exactly the allowed polls; round by round the stop worker of the lifecycle. |
| `Process.WaitForRunning` | pkg/process/healthchecker.go:23-40 | True exactly if within the allowed rounds a tick finds the service ready before the stop channel is closed; round by round the probe of the lifecycle, while the process may change between rounds. |
| `System.InvHolds` | pkg/process/process_manager.go:182-309 | Registry and lifecycles keep their invariants when run together. |
| `SystemTheorems.RegistryPart` | pkg/process/process_manager.go:182-309 | Every state of the whole shows a reachable state of the registry protocol, so its theorems apply. |
| `SystemTheorems.LifePart` | pkg/process/process.go:50-207 | Every process in it is in a reachable state of the lifecycle, so its theorems apply. |
| `SystemTheorems.WorkerSawEnd` | pkg/process/process_manager.go:281-293 | A worker about to remove its process has found it Stopped or in Error before. |
| `SystemTheorems.GivesUpAfterWaiting` | pkg/process/process_manager.go:281-293 | A worker that gave up found the process not ended at a last look, after all 600 looks, or after one that found it ended. |
| `SystemTheorems.DeleteStopsFirst` | pkg/process/process_manager.go:242-247 | No delete unregisters a process that it has not stopped before, leaving it Stopping, Stopped or in Error. |
| `SystemTheorems.CleanupStopsFirst` | pkg/process/process_manager.go:487-494 | No failed replacement gives its ports back before it has been stopped, likewise. |
| `SystemTheorems.StopCameBeforeSwap` | pkg/process/process_manager.go:518-523 | A replacement about to swap has stopped the old process, leaving it Stopping, Stopped or in Error. |
| `SystemTheorems.LeavesOnlyStopped` | pkg/process/process_manager.go:281-304 | No process leaves the registry unless it was in one of those states before; one removed by a worker had ended. |
| `SystemTheorems.TakesOverRunning` | pkg/process/process_manager.go:504-519 | A replacement that takes over was Running at its last poll, or still Starting at the 30th. |
| `SystemTheorems.RemovedStaysEnded` | pkg/process/process_manager.go:281-304 | What a worker removes stays ended for the rest of the run if its probe was through at the worker's last look. |
| `SystemTheorems.EndedForGoodIff` | pkg/process/process_manager.go:281-304 | At any point of any run a process to be unregistered is ended in every continuation if and only if it has ended and its probe is through. |
| `SystemTheorems.RemovedCanRun` | pkg/process/process_manager.go:281-304 | At any point of any run, if such a process, made by a create or a replace, has its probe pending, it has a continuation in which it runs with the registry unchanged. |
| `SystemTheorems.DeletedBeforeStartRuns` | pkg/process/process_manager.go:215-220 | From every initial state, for every acceptable request, there is a run in which the process is deleted before its start and ends up Running and unregistered; all ports are then free exactly if its range is none or reaches above port 0 without beginning below it. |
| `SystemOverlap.OverlapByCreatesIff` | pkg/process/process_manager.go:253-270 | In every reachable state, creates alone lead to two processes that have not ended with a port in common if and only if such a process has a port that is free, or that another such process has. |
| `SystemOverlap.OverlapExplained` | pkg/process/process_manager.go:487-540 | If in any run two processes that have not ended have a port in common, one gave its ports back by a swap that displaced it, by the cleanup of a failed replacement, or to a worker that had last found its probe pending. |
| `SystemRuns.OverlapAfterSwap` | pkg/process/process_manager.go:518-540 | A run with such an overlap in a pool of one port, its cause a swap: the displaced process is still stopping, its command running. |
| `SystemRuns.OverlapAfterCleanup` | pkg/process/process_manager.go:487-494 | One whose cause is the cleanup of a replacement, which then counts as Running. |
| `SystemRuns.OverlapAfterRemoval` | pkg/process/process_manager.go:215-220 | One whose cause is a worker's removal after a look at a process with its probe pending, which then runs. |
| `BroadcastTheorems.Fidelity` | pkg/util/broadcaster/broadcaster.go:16-75 | Items read followed by items buffered are the history since subscribing with exactly the missed ones left out; who missed one is closed or has an eviction pending. |
| `BroadcastTheorems.NothingMissed` | pkg/util/broadcaster/broadcaster.go:63-75 | A subscriber has exactly the history since it subscribed if and only if no eviction of it is pending. |
| `BroadcastTheorems.GapIff` | pkg/util/broadcaster/broadcaster.go:66-73 | At every step of every run, what a subscriber has is a prefix of that history after the step if and only if it was so before and the step did not deliver past something missed. |
| `BroadcastTheorems.ChannelsAreSafe` | pkg/util/broadcaster/broadcaster.go:16-83 | Channels are open exactly while subscribed, closed at most once, and can be unsubscribed by their context as long; at most one stream has not finished, exactly while running. |
| `BroadcastTheorems.ClosedForGood` | pkg/util/broadcaster/broadcaster.go:39-50 | Nothing is sent on a closed channel, and none is reopened. |
| `BroadcastTheorems.GapBeforeEviction` | pkg/util/broadcaster/broadcaster.go:66-73 | A run in which an open subscriber has missed an item and received the next. |
| `Watch.DeliveredReaches` | pkg/process/process_manager.go:111-119 | Every response the stream has delivered is, at its place, with every subscriber that had joined and has no eviction pending. |
| `Watch.RemovalReachesWatchers` | pkg/process/process_manager.go:295-307 | Every removal's update is with its worker, the monitor or the stream, or with every such subscriber, and then says Deleted unless the name was registered again before the monitor looked. |
| `Broadcaster.Broadcaster.Subscribe` | pkg/util/broadcaster/broadcaster.go:16-37 | Fails exactly if no stream runs and none can be connected; otherwise adds one new open channel; keeps the invariant. |
| `Broadcaster.Broadcaster.Unsubscribe` | pkg/util/broadcaster/broadcaster.go:39-50 | Closes and drops that channel if subscribed, and is harmless otherwise; keeps the invariant. |
| `Broadcaster.Broadcaster.DeliverItem` | pkg/util/broadcaster/broadcaster.go:64-75 | Every subscriber gets the item or an eviction, in any map order; keeps the invariant. |
| `Broadcaster.Broadcaster.FinishStream` | pkg/util/broadcaster/broadcaster.go:77-82 | All subscribers are closed and none is left; keeps the invariant. |
| `Broadcaster.OfferToEach` | pkg/util/broadcaster/broadcaster.go:66-73 | The loop offers to exactly the subscribers, whatever the order. |
| `Broadcaster.CloseEach` | pkg/util/broadcaster/broadcaster.go:78-80 | The loop closes exactly the subscribers, whatever the order. |
| `Locks.WaitsGoDown` | pkg/process/process_manager.go:37-40 | Every wait, for a lock, a waiting writer or a channel partner, goes down in rank. |
| `Locks.StepKeeps` | pkg/process/process_manager.go:103-125 | Every step keeps mutual exclusion and the discipline. |
| `Locks.EveryWaitEnds` | pkg/process/process_manager.go:103-125 | In every run of disciplined goroutines, each chain of waits ends at one that can go on and whose next step is enabled. |
| `Locks.Drains` | pkg/process/process_manager.go:103-125 | Without new goroutines every schedule finishes them all in exactly the number of steps left, and is never stuck before. |
| `LockScripts.RoutineIsDisciplined` | pkg/process/process_manager.go:147-592 | Every path of every routine takes locks in order, holds none across a send, and keeps none. |
| `LockVisible.ScriptsAreSeen` | pkg/process/process_manager.go:147-592 | No script leaves out, adds or reorders a section under the manager's lock, a write under a process's lock, or an update. |
| `LockScripts.NoDeadlock` | pkg/process/process_manager.go:147-592 | Hence at any point of any run of the routines, whoever has something left to do heads a chain of waits ending at a goroutine whose next step is enabled. |
| `LockScripts.AllCallsFinish` | pkg/process/process_manager.go:147-592 | And once no new call comes in, all finish under every schedule, in a number of steps known beforehand. |
| `LockScripts.StopUnderLockBreaksOrder` | pkg/process/process_test.go:176-185 | A stop inside the manager's critical section breaks the discipline. |
| `LockScripts.StopUnderLockDeadlocks` | pkg/process/process_test.go:176-185 | And there is a run in which it deadlocks with the monitor. |

## Left out

- The registry protocol is modelled for sound pools only; the bitmap and the manager's allocation also for those that have overflown.
- `Manager.Manager.RegisterProcess`: the new object's UUID is the next creation number; that UUIDs do not collide is taken for granted.
- `Process.Process.Start`: the two goroutines it spawns are actions of `Lifecycle`; the object has only the shared fields.
- `Locks.EveryWaitEnds`: for a live monitor and stream; after the manager's context is cancelled senders may block.
- `RegistryRuns.RefusedThoughFree`: for pools with four ports above port 0, where what is deleted is given back.
- The compressed bitmap library is a sequence of flags, and its iterator the next flag set.
- Command creation and exit, signal delivery, whether an executing command is seen running and the health check's answers are environment choices; no claim about operating system processes is made.
- Time is a logical clock per process in milliseconds; no fairness is assumed.
- Error messages, logging, log streaming and the log writer's own lock.
- Mount points and the hash of volume names in the condition check: only its locks and update sends are modelled.
- The watch calls that forward a subscriber's channel to a client.
- Instance, disk, proxy, client, API, health and command-line packages: forwarding and field copying.
