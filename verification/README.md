# Host safety of fault injection, verified

A Dafny model of the host-safety protocol of a chaos-engineering system, and proofs about it. A master
dispatches fault instances to agents; an agent runs each instance's plugin through preflight, inject,
recovery and, if recovery fails twice, quarantine. The promise under proof is that no fault is ever
forgotten on a host, whatever crashes, aborts, plugin outcomes and network delays occur, and that the
master's verdict does not hide one.

## How it is built

The agent, from the inside out:

- `Machine.dfy` is the pure transition function of one instance; `MachineRuns.dfy` proves it over every
  event sequence.
- `Task.dfy` cuts the shell that drives the machine into micro-steps (one effect each, a plugin process
  started and reaped in two) and states the invariant of one instance on its host; `TaskRuns.dfy` and
  `Endings.dfy` prove runs of micro-steps, from any schedule of aborts and plugin outcomes.
- `Worlds.dfy` says how the outside answers (the digest gate, plugin outcomes, file operations, the end of
  the ACTIVE wait) and which micro-steps those answers dictate. `Scripts.dfy` tells the life of an instance
  as a straight line, with no machine and no queues in it, and proves that every run is that script;
  `Agreement.dfy` proves that recoveries given the same answers agree.
- `Host.dfy` is the durable state: the journal and the quarantine record, as objects.
- `Shell.dfy`, `Drivers.dfy` and `Replay.dfy` are the two imperative drivers, the event-queue loop of a
  live instance and the effect-queue loop of a restart replay. Every method is proved to be a legal run
  of micro-steps with the answers of its world, so what holds of those runs holds of both loops. The
  ghost sets of `Host` say whose fault may be on the host (`dirty`: from the start of an inject process
  until a cleanup exits 0, or the inject itself exits 20 over a host that was clean before), who has no
  claim on the promise (`excused`: the quarantine could not be persisted, or the instance was started over
  an unmarked fault of an earlier life) and whose journal entry could not be removed (`stuck`).
- `AgentSystem.dfy` is a whole agent over its lives: any number of instances interleaved micro-step by
  micro-step, crashes between any two micro-steps (so also in the middle of an invocation), restarts,
  replays, corrupted journal files and operator clears.
- `Supervisor.dfy` is the registry of instances; `Timer.dfy` the one safety deadline of an ACTIVE
  instance and the wait that re-arms it.

The master:

- `Record.dfy` is what each handler makes of one experiment record, as functions; `RecordRuns.dfy` proves
  them over every message sequence, and `KillSwitch.dfy` what fires the kill-switch, whom it reaches and
  whom the record blames; `Dispatch.dfy` (one record) and `Dispatcher.dfy` (the store) are the
  objects updated in place, each method proved against those functions.
- `Params.dfy`, `Ids.dfy`, `Validation.dfy`, `Minting.dfy` and `Experiments.dfy` take a definition through
  validation, minting and dispatch, and connect the result with the agent's own checks. `Sessions.dfy` is
  the supersede map of live sessions.

`Sequences.dfy` and `Ordering.dfy` hold facts about sequences and sorting by a text key.

`Composition.dfy` joins one record, any number of agents with any past, and a network that may drop,
delay, reorder and duplicate status frames.

The main results are `AgentSystem.NoFaultIsForgotten`, `CrashSafety` and `ReplayKnowsItsFault`,
`Composition.CleanVerdictIsTrue` and `OnlyErrorHidesAFault`, `Scripts.LiveRunIsScript` and `DoneIff`,
`TaskRuns.NeverFallsBack` and `TurnDecides`, `Agreement.LiveRecoveryIsReplay`, `Replay.ReplayJournal` and
`CrashedRunIsReplayed`, `Endings.FinishedRecovery` and `StrandedExactly`, `RecordRuns.RunKeepsRecord` and
`OrderDoesNotMatter`, `KillSwitch.TaintStopsTheExperiment` and `FiredIsWhoWasAsked`,
`Validation.AcceptedIff`, `Experiments.EveryExperimentConcludes` and `SalvoIsWelcome`, and
`Timer.WhyTheWaitEnds` and `DoneRanItsFullTime`.

## What is taken as given

- The outside is an oracle: plugin outcomes, the digest gate, which file operations succeed, when aborts
  arrive, what the clock says. It appears as parameters (`World`, `Gate`, `io`), as micro-steps, or as a
  timeline. The proofs hold for all of its answers.
- `CrashSafety` assumes that quarantine records are persisted, that no operator clears the taint, and that
  after a restart whose journal could not be listed no instance is started over a fault that was passed
  over; `NoFaultIsForgotten` makes no such assumption and names the instances to which it happened in
  `excused`. `Endings.FailedQuarantineStrands` is a whole run in which a quarantine that cannot be
  persisted does strand a fault, and `Endings.StrandedExactly` says, of every whole run, exactly when.
- What an invocation does to its host is what its exit code promises: a cleanup that exits 0 took the
  fault away, an inject that exits 20 did nothing.

## Where code and documentation disagree

The model follows the code.

- `crates/agent/src/journal.rs:1-4` says that the entry goes once a terminal state has been queued for
  reporting. The effect order is the reverse: the entry is removed, then the terminal status is emitted
  (`crates/agent/src/machine.rs:386-392`, `crates/agent/src/machine.rs:426-436`).
- `crates/agent/src/machine.rs:591-593` says that every impossible pair of state and event is ignored.
  While INJECTING, a failed or refused invocation of any other command is acted on
  (`MachineRuns.UnawaitedIgnoredExactly`, `MachineRuns.StrayRefusalEndsInjecting`). The shell never
  produces such a pair, which is part of `Task.MicroKeeps`.
- `crates/agent/src/supervisor.rs:569-576` says that it sleeps out the current deadline when the session
  layer is gone. The sleep was measured at the last arming and starts over, so the stop comes late by
  the time already waited (`Timer.SessionGoneDelaysTheStop`, `Timer.LateStop`, `Timer.LateAtTheTie`).

## Model

| member | source | states |
|---|---|---|
| MachineRuns.StepSpendsMeasure | crates/agent/src/machine.rs:595-609 | a measure over lifecycle position, commands left and retry never rises, and falls on every step that has an effect |
| MachineRuns.InvocationBound | crates/agent/src/machine.rs:364-449 | any event sequence from any state invokes each command at most as often as that state's budget allows |
| MachineRuns.LifetimeInvocationBound | crates/agent/src/machine.rs:595-609 | from PENDING: at most 2 preflights, 1 inject, 2 aborts, 2 cleanups, no report, over any event sequence |
| MachineRuns.RunKeepsWf | crates/agent/src/machine.rs:51-58 | every reachable recovery is cleanup alone, or abort and then cleanup aiming at ABORTED or ERROR |
| MachineRuns.TaintIffTwice | crates/agent/src/machine.rs:422-449 | over any run the host is quarantined exactly when one recovery command failed twice |
| MachineRuns.CleanEndingNeverTaints | crates/agent/src/machine.rs:422-449 | a run that ends DONE or ABORTED never quarantined the host |
| MachineRuns.TerminalAbsorbs | crates/agent/src/machine.rs:595-609 | after a terminal state no event has any effect |
| MachineRuns.StatusStream | crates/agent/src/machine.rs:139-158 | over any run the statuses strictly climb the lifecycle, and the last one is the machine's own state |
| MachineRuns.TerminalStatusIsLastEffect | crates/agent/src/machine.rs:364-449 | the only terminal status is the very last effect of the instance's life |
| MachineRuns.StopBeforeInjectIsHonoured | crates/agent/src/machine.rs:310-362 | a stop consumed anywhere before INJECTING means that inject is never invoked, whatever follows |
| MachineRuns.StopWhileInjectingIsHonoured | crates/agent/src/machine.rs:521-584 | a stop consumed while INJECTING means that ACTIVE is never entered |
| MachineRuns.FirstStopCounts | crates/agent/src/machine.rs:310-316 | however many stops arrive before ACTIVE and however far the instance goes meanwhile, the one on record is the first |
| MachineRuns.StoppedEarlySays | crates/agent/src/machine.rs:451-472 | an instance stopped before its inject ends ABORTED, never started or never injected, and says by what |
| MachineRuns.UnawaitedIgnoredExactly | crates/agent/src/machine.rs:570-593 | exactly which events that a state does not wait for are ignored |
| MachineRuns.StrayRefusalEndsInjecting | crates/agent/src/machine.rs:570-584 | the concrete stray event that is not ignored |
| Task.FramedIsNotWedged | crates/agent/src/supervisor.rs:634-651 | with the queue invariant, an instance that waits for nothing is ACTIVE or terminal |
| Task.MicroKeeps | crates/agent/src/supervisor.rs:506-541 | every micro-step keeps the cell invariant: queue and pending effects fit the state, the journal entry is there while it must be, and an unshielded fault is in the hands of its task |
| Task.CleanEndingIsClean | crates/agent/src/machine.rs:364-418 | an instance that ended DONE or ABORTED left its fault nowhere |
| TaskRuns.RunKeeps | crates/agent/src/supervisor.rs:585-670 | the cell invariant holds after every legal run of micro-steps |
| TaskRuns.NeverFallsBack | crates/agent/src/supervisor.rs:643-651 | the shell's wedged branch is never taken, for any schedule of aborts and any plugin outcomes |
| TaskRuns.TraceIsMachineRun | crates/agent/src/supervisor.rs:653-667 | what a shell performs plus what it still has to do is exactly what the machine emits on the events it consumed |
| TaskRuns.LoopHeadStatus | crates/agent/src/supervisor.rs:653-667 | at a loop head the statuses sent so far start with PENDING, strictly climb, and end with the state that the view holds |
| TaskRuns.ShellInvocationBound | crates/agent/src/supervisor.rs:585-670 | one shell completes at most one inject, 2 preflights, 2 aborts and 2 cleanups |
| TaskRuns.RecoveryIgnoresAborts | crates/agent/src/machine.rs:364-418 | operator aborts at any points of a recovery change neither its effects nor its end |
| TaskRuns.RecoveryVerdict | crates/agent/src/machine.rs:364-449 | a recovery that ends is quarantined and ERROR, or ERROR because the dead-man fired in it, or ends in exactly the outcome it aimed for; the journal entry goes before the last status |
| TaskRuns.TurnDecides | crates/agent/src/machine.rs:39-58 | what decides a life: the stop of an ACTIVE fault (full duration: DONE, operator or lost master: ABORTED, dead-man: ERROR), the inject that was stopped meanwhile, or the ambiguous inject; only a command failing twice or a dead-man during the recovery changes that to ERROR |
| TaskRuns.NoTurnAborts | crates/agent/src/machine.rs:451-584 | a life without such a turning point ends ABORTED |
| Worlds.GateIsGiven | crates/agent/src/supervisor.rs:449-487 | the micro-steps of an invocation are the ones its world gives: refused, not verified, or run with exactly so many aborts drained and that outcome |
| Scripts.RunIsDictated | crates/agent/src/supervisor.rs:634-668 | from any point of an instance on, its whole run performs exactly the effects, and comes to exactly the end, that the machine makes of the answers of its world |
| Scripts.LiveRunIsScript | crates/agent/src/supervisor.rs:634-668 | the event-queue loop over the state machine refines a straight-line script: setup, two preflights, journal, inject, the wait, the recovery commands with one retry each; same effects with their reasons, same order, same end, for every world |
| Scripts.ReplayIsScript | crates/agent/src/supervisor.rs:749-825 | and the effect-queue loop of a replay the script of abort and then cleanup |
| Scripts.DoneIff | crates/agent/src/machine.rs:39-58 | an instance ends DONE exactly when setup, preflights, journal and inject went through undisturbed, the stop was the end of its duration, and the cleanup exited 0 at the first or second attempt |
| Scripts.ActivatedEndsAs | crates/agent/src/machine.rs:39-58 | a fault that came to be ACTIVE ends DONE only after its full duration and ABORTED only after an operator abort or a master loss, in both cases exactly when the recovery gets through |
| Scripts.UndisturbedScript | crates/agent/src/machine.rs:682-750 | the whole story of a fault that nothing disturbs, effect by effect, up to DONE |
| Agreement.RunAlike | crates/agent/src/machine.rs:364-449 | the machine never looks at the reason of a recovery: same events, same effects up to status reasons, same end |
| Agreement.RecoveriesAgree | crates/agent/src/supervisor.rs:771-823 | two recoveries alike up to the reason and given the same answers perform the same effects and end in the same state, whatever loop drives them and wherever aborts fall |
| Agreement.LiveRecoveryIsReplay | crates/agent/src/supervisor.rs:771-823 | from the start of its recovery by abort and cleanup on, a live instance does what the replay of a journaled one does |
| Agreement.StopsStartReplays | crates/agent/src/machine.rs:276-298 | an operator abort, a master loss and the dead-man start exactly the recovery that a replay runs |
| Endings.RunDrops | crates/agent/src/machine.rs:386-392 | a finished instance leaves no journal entry, if removals succeed |
| Endings.RecoveryCleans | crates/agent/src/machine.rs:364-418 | a recovery that ends without quarantine has cleaned the host |
| Endings.FinishedRecovery | crates/agent/src/machine.rs:422-449 | a finished recovery is quarantined and ERROR exactly when one command failed twice; otherwise the host is clean and the outcome is the one aimed for |
| Endings.StrandedExactly | crates/agent/src/supervisor.rs:506-538 | over every whole run from an unshielded host: the fault is left with no entry and no quarantine exactly when the run ends with it on the host, its mark failed, and the entry was removed after that |
| Endings.UnmarkedMeansFailedMark | crates/agent/src/supervisor.rs:684-688 | a whole run that leaves a fault on an unquarantined host attempted a mark, and that failed |
| Endings.FailedQuarantineStrands | crates/agent/src/supervisor.rs:684-688 | a concrete whole run that strands a fault because the quarantine could not be persisted |
| HostState.Journal.Write | crates/agent/src/journal.rs:99-115 | the whole entry under its id, or nothing changes |
| HostState.Journal.Remove | crates/agent/src/journal.rs:117-122 | idempotent removal of one id and nothing else |
| HostState.Journal.List | crates/agent/src/journal.rs:135-156 | every entry exactly once, each readable or broken on its own, sorted by id or by its error message |
| HostState.ReadIff | crates/agent/src/journal.rs:158-190 | a file reads as an entry exactly when it is a version 1 object of the right shape; any other version, or none, is unknown, whatever the shape |
| HostState.Taint.Current | crates/agent/src/taint.rs:41-61 | an unreadable record still counts as tainted |
| HostState.Taint.Mark | crates/agent/src/taint.rs:70-83 | the first record stays; success means that the host is tainted |
| HostState.Taint.Clear | crates/agent/src/taint.rs:94-99 | idempotent; a failed removal keeps the quarantine |
| Shell.InvokeGated | crates/agent/src/supervisor.rs:428-488 | the micro-steps, the drained aborts and the result event of one invocation are exactly those that the gate and the outcome dictate |
| Shell.FramesTell | crates/agent/src/supervisor.rs:411-423 | the frames of a run are its statuses in order, each with the state and reason of its effect, and a taint report exactly if it quarantined; never an all-clear |
| Shell.PersistJournal | crates/agent/src/supervisor.rs:518-526 | when the write succeeds, the file reads back as the very entry of the instance |
| Shell.ApplyEffect | crates/agent/src/supervisor.rs:506-541 | performing one effect is a run of micro-steps that affects no other instance and takes no protection away; a journal write that succeeds leaves the entry of the instance on disk, whole, and a first quarantine its reason and its id |
| Shell.NextEvent | crates/agent/src/supervisor.rs:634-651 | the next event is the queue's head or the end of the ACTIVE wait, never the fallback |
| Shell.OneTurn | crates/agent/src/supervisor.rs:634-668 | one turn of the loop is a run of micro-steps and makes progress |
| Shell.EventLoop | crates/agent/src/supervisor.rs:634-668 | the loop terminates in a terminal state with both queues empty; the whole call is a legal run of micro-steps with exactly the answers of its world, and its frames are that run's; at every turn at which the instance must be journaled its own entry is on disk |
| Drivers.Setup | crates/agent/src/supervisor.rs:307-335 | the checks of the agent reach the verdict that validation is compared with below |
| Drivers.PassesIff | crates/agent/src/supervisor.rs:307-335 | setup passes exactly on a clean host that has that plugin with that very digest, for conforming parameters and a duration within the maximum |
| Drivers.RunInstance | crates/agent/src/supervisor.rs:585-670 | a live instance from its RunFault to its end, with the answers of its world: it follows its script; terminal, DONE or ABORTED means clean, a fault left behind is quarantined, the entry is gone; a refused setup ends ABORTED without any plugin command, and a run that nothing disturbs ends DONE |
| Drivers.RefusedSetupAborts | crates/agent/src/machine.rs:451-472 | a refused setup ends ABORTED with two statuses and no plugin command |
| Drivers.EntryHoldsTheRun | crates/agent/src/supervisor.rs:490-503 | what is written for a RunFault reads back as an entry with the whole frame in it, its start, and the second of start, duration and grace as its deadline |
| Replay.ReplayEntry | crates/agent/src/supervisor.rs:749-825 | one journaled instance goes through a whole recovery, the script of a replay, with the answers of its world and no aborts; ABORTED exactly when no command failed twice and its deadline had not passed; then the host is clean, otherwise marked; the entry is gone if removals work |
| Replay.WholeReplay | crates/agent/src/supervisor.rs:749-825 | what every whole replay comes to, over all plugin answers: verdict, cleanliness, quarantine exactly after two failures of one command, removal |
| Replay.CrashedRunIsReplayed | crates/agent/src/supervisor.rs:749-767 | cut the run of an instance anywhere where it must be journaled: its entry is the one of its RunFault, and the replay ends ABORTED exactly when no command failed twice and the second it runs in lies before that start plus duration plus grace, otherwise ERROR |
| Replay.DriversAgree | crates/agent/src/supervisor.rs:634-668 | the runs of the two drivers, as their methods promise them, agree from the start of the recovery on |
| Replay.QuarantineUnreadable | crates/agent/src/supervisor.rs:728-743 | an unreadable entry quarantines the host and is kept |
| Replay.ReplayJournal | crates/agent/src/supervisor.rs:702-747 | replay completeness: it terminates, every readable entry went through such a recovery, has its verdict, is removed if removals work and leaves the host as the recovery did; every unreadable one quarantines; no fault is left that is not behind a quarantine |
| AgentSystem.ActKeeps | crates/agent/src/supervisor.rs:506-541 | every action of an agent (micro-step, RunFault, crash, restart, replay, corruption, clear) keeps the agent invariant |
| AgentSystem.NoFaultIsForgotten | crates/agent/src/machine.rs:482-508 | after any run with crashes anywhere, a host that may carry an instance's fault has its journal entry, or is tainted, or the instance was excused |
| AgentSystem.CrashSafety | crates/agent/src/machine.rs:426-436 | the same without excuses, when quarantines are persisted and nobody clears the taint; the journal may fail to be listed, as long as no instance is started over a fault that was passed over |
| AgentSystem.ReplayLeavesNothingBehind | crates/agent/src/supervisor.rs:696-701 | once sessions are open after a replay, an unshielded fault has its entry and a task that is dealing with it |
| AgentSystem.JournalIsOwn | crates/agent/src/supervisor.rs:490-503 | after any run an instance that must be journaled has its own entry on disk, unless the file was corrupted |
| AgentSystem.ReplayKnowsItsFault | crates/agent/src/supervisor.rs:749-767 | from an accepted RunFault to any later replay, across crashes: the entry read is the one of that RunFault, and the replay aims at ABORTED exactly until the entry's deadline |
| AgentSystem.CorruptionQuarantines | crates/agent/src/supervisor.rs:728-743 | a journal file that is corrupted at any moment quarantines the host at the next replay, and stays |
| AgentSystem.ClearingStrands | crates/agent/src/taint.rs:94-99 | an operator's clear over a fault without an entry leaves it unprotected, so the promise does need that excuse |
| AgentSystem.LivesStartEmpty | crates/agent/src/supervisor.rs:696-701 | every life with sessions starts without tasks |
| AgentSystem.InjectStartsOnce | crates/agent/src/supervisor.rs:177-201 | under any RunFault frames inject is started at most once per id and life, and never after a clean ending was reported |
| AgentSystem.StatusesAreStates | crates/agent/src/supervisor.rs:411-423 | every status sent is the machine's state at that moment |
| AgentSystem.ReportIsTheStream | crates/agent/src/supervisor.rs:267-299 | at the loop heads the report lists exactly the instances whose last status was not terminal, with that status |
| AgentSystem.NeverWedged | crates/agent/src/supervisor.rs:643-651 | in no reachable agent is any instance wedged |
| AgentSystem.CleanReportsAreTrue | crates/agent/src/supervisor.rs:411-423 | a DONE or ABORTED that was ever sent stays true, for an id whose RunFault was consumed at most once |
| Supervisor.EachIdStartsOnce | crates/agent/src/supervisor.rs:177-201 | over any frames a task is started by exactly the first usable RunFault of each id |
| Supervisor.OvertakingAbortIsLost | crates/agent/src/supervisor.rs:204-213 | an abort that arrives before its RunFault reaches nobody |
| Supervisor.Supervisor.HandleRunFault | crates/agent/src/supervisor.rs:179-201 | starts a task at PENDING, or drops an unusable or known id and changes nothing |
| Supervisor.Supervisor.HandleAbortFault | crates/agent/src/supervisor.rs:204-213 | one stop for a known instance, nothing for an unknown one |
| Supervisor.Supervisor.ReportFrame | crates/agent/src/supervisor.rs:267-299 | lists exactly the live instances with their states and digests, each once, sorted by id |
| Supervisor.ReportsWhatTheAgentSends | crates/agent/src/supervisor.rs:267-299 | over views that mirror the tasks the report lists what the agent is said to report |
| Supervisor.RegistryIsTheAgents | crates/agent/src/supervisor.rs:179-201 | over one life of an agent its tasks are exactly the instances that the registry started |
| Timer.NextStopIsEarliest | crates/agent/src/machine.rs:633-645 | the timer fires exactly when some cause is due, and names the gentlest of those due first |
| Timer.WaitForStop | crates/agent/src/supervisor.rs:543-581 | for every timeline the re-arming loop ends at the first moment at which its armed stop is due, an operator stop arrives or the session layer goes; while that is there, no later than the earlier of duration end and dead-man |
| Timer.WaitIsTimely | crates/agent/src/supervisor.rs:543-581 | over all timelines: unless the session layer cut the sleep, the wait ends within the earlier of duration end and dead-man (or at once) and within the loss threshold; the cause named is due |
| Timer.ConnectivityIs | crates/agent/src/supervisor.rs:554-557 | the connectivity that the wait keeps is the last change on the timeline, or the initial one if nothing changed |
| Timer.WhyTheWaitEnds | crates/agent/src/supervisor.rs:543-581 | read off the timeline: a wait ends with MasterLost only when the last change of connectivity was a loss, or there was none and it began lost, and that loss is as old as the threshold; with DurationElapsed only after the duration; with Deadman only past a dead-man that comes before it |
| Timer.ReconnectDisarms | crates/agent/src/machine.rs:1230-1240 | while the master is back, the armed stop is exactly the gentler of duration end and dead-man |
| Timer.LossArms | crates/agent/src/machine.rs:633-645 | while it is lost, the armed stop is the earliest of the three, ties to the gentlest |
| Timer.OperatorIsHeard | crates/agent/src/supervisor.rs:578-579 | the wait never outlasts an operator stop, unless the session layer went before it |
| Timer.BackInTime | crates/agent/src/machine.rs:1230-1240 | a master that is back within the threshold leaves the fault its full duration, on a concrete timeline |
| Timer.DoneRanItsFullTime | crates/agent/src/supervisor.rs:634-651 | an instance that ends DONE was ACTIVE for its whole duration |
| Timer.SaturatingAddIsNearest | crates/agent/src/machine.rs:633-645 | the threshold sum is exact where it fits into 64 bits, otherwise the nearest number that does |
| Timer.SessionGoneDelaysTheStop | crates/agent/src/supervisor.rs:569-576 | over all timelines: the bound holds exactly when the session layer did not cut the sleep, or cut it after no longer than the bound leaves room for; the armed stop is kept only if nothing had been slept |
| Timer.LateStop | crates/agent/src/supervisor.rs:569-576 | a concrete timeline on which the stop comes late |
| Timer.LateAtTheTie | crates/agent/src/supervisor.rs:569-576 | at the tie the race decides between the armed moment and twice the wait |
| Timer.DeadmanWinsIff | crates/agent/src/supervisor.rs:591-601 | the dead-man beats the duration exactly when reaching ACTIVE took longer than the grace less the dropped milliseconds |
| RecordRuns.TriggerIff | crates/master/src/experiment.rs:521-548 | the kill-switch triggers exactly when some instance is ERROR, or ABORTED without having been asked |
| RecordRuns.TriggerNamesTheFirst | crates/master/src/experiment.rs:521-548 | the cause names the first such instance in record order |
| RecordRuns.OutcomeIsTheWorst | crates/master/src/experiment.rs:552-573 | an outcome exists exactly when nothing is live, and is the worst that happened to any instance; a taint is as bad as an ERROR |
| RecordRuns.BadOutcomeHasCause | crates/master/src/experiment.rs:579-613 | every outcome but COMPLETED finds a cause in the record |
| RecordRuns.HandleKeeps | crates/master/src/dispatch.rs:451-497 | every handler keeps the record invariant: RUNNING has no ERROR, no ABORTED and no tainted host in it, no abort asked and no cause; HALTING has a cause and everything live was asked; CONCLUDED still has its outcome |
| RecordRuns.HandleMovesForward | crates/master/src/dispatch.rs:463-497 | the phase never goes back, a concluded record never changes, the first cause stays |
| RecordRuns.RunKeepsRecord | crates/master/src/dispatch.rs:241-390 | all of that over every message sequence |
| RecordRuns.DeadlineConcludes | crates/master/src/dispatch.rs:352-390 | at its deadline every unconcluded good record becomes Concluded(ERROR) with a cause; exactly the live instances turn to ERROR, unresolved at the deadline |
| RecordRuns.AlwaysConcludes | crates/master/src/dispatch.rs:352-390 | the same after any messages whatsoever |
| RecordRuns.HandleStates | crates/master/src/experiment.rs:473-494 | an instance changes only by its own status report, or to ERROR at the deadline |
| RecordRuns.AsksEachOnce | crates/master/src/dispatch.rs:463-481 | over a record's life the kill-switch hands out each instance at most once |
| RecordRuns.StatusesDecideAlone | crates/master/src/dispatch.rs:241-277 | with status reports only, each instance is where its own reports lead it, and the states alone decide the phase |
| RecordRuns.OrderDoesNotMatter | crates/master/src/dispatch.rs:451-497 | two interleavings of the same per-instance reports give the same states, phase and outcome |
| KillSwitch.WhatHalts | crates/master/src/experiment.rs:521-548 | a running experiment is stopped by exactly these: a live instance in ERROR or ABORTED, a taint of one of its hosts, the operator, the deadline; by anything else nobody is asked to abort |
| KillSwitch.TaintStopsTheExperiment | crates/master/src/dispatch.rs:296-303 | a taint of a targeted host leaves an unconcluded record HALTING, with the host known, a cause that names it, and everything live asked; aborts go to exactly the live instances that were unasked |
| KillSwitch.HaltStopsTheExperiment | crates/master/src/dispatch.rs:326-342 | an operator halt stops every unconcluded record the same way, and is the cause unless there was one |
| KillSwitch.FiredIsWhoWasAsked | crates/master/src/dispatch.rs:463-481 | for every message: an abort is handed out for an instance on its host exactly when that message marked it as asked |
| KillSwitch.OutcomeBlames | crates/master/src/experiment.rs:579-613 | a conclusion without an earlier cause names the first ERROR, failing that the first taint, or the first ABORTED |
| KillSwitch.DeadlineBlames | crates/master/src/dispatch.rs:366-376 | the deadline names the first instance still live |
| Dispatch.ExperimentRecord.ApplyStatus | crates/master/src/experiment.rs:473-494 | the in-place update is the function that absorbs terminal states, and tells whether it changed anything |
| Dispatch.ExperimentRecord.RecordTaint | crates/master/src/experiment.rs:497-506 | each host is recorded once |
| Dispatch.ExperimentRecord.KillTrigger | crates/master/src/experiment.rs:521-548 | the scan yields the trigger of the record: the first ERROR or unrequested ABORTED, otherwise the first taint |
| Dispatch.ExperimentRecord.FireKillSwitch | crates/master/src/dispatch.rs:463-481 | marks exactly the live unasked instances, hands out exactly those, keeps the first cause |
| Dispatch.ExperimentRecord.ConcludeIfDone | crates/master/src/dispatch.rs:485-497 | concludes with the outcome and a cause once nothing is live |
| Dispatch.ExperimentRecord.OnStatus | crates/master/src/dispatch.rs:252-265 | the locked block of a status report, as a step that keeps the invariant |
| Dispatch.ExperimentRecord.OnTaint | crates/master/src/dispatch.rs:296-303 | the same for a taint report; what that does is KillSwitch.TaintStopsTheExperiment |
| Dispatch.ExperimentRecord.OnHalt | crates/master/src/dispatch.rs:326-342 | the same for an operator halt |
| Dispatch.ExperimentRecord.OnDeadline | crates/master/src/dispatch.rs:354-388 | the same for the deadline, which always leaves the record concluded |
| Dispatcher.Dispatcher.HandleInstanceStatus | crates/master/src/dispatch.rs:241-265 | only the record that owns the instance changes, and the aborts are for exactly the instances newly marked as asked |
| Dispatcher.Dispatcher.HandleInstanceReport | crates/master/src/dispatch.rs:269-277 | whatever other handlers run between two statuses, every record handles exactly the messages that concern it, in the order served |
| Dispatcher.ReportFires | crates/master/src/dispatch.rs:269-277 | the aborts of a report are those of its statuses, each in the records as it finds them |
| Dispatcher.StatusFindsItsRecord | crates/master/src/dispatch.rs:440-446 | the status of a minted instance reaches the record of its experiment and no other |
| Dispatcher.Dispatcher.ServeOne | crates/master/src/dispatch.rs:241-390 | any handler call is, for every record, the message it is to that record |
| Dispatcher.ServesOneMore | crates/master/src/dispatch.rs:241-390 | serving requests one by one gives every record its own messages in order, so all that is proved of records over message sequences holds of the store |
| Dispatcher.Dispatcher.HandleTaintStatus | crates/master/src/dispatch.rs:282-306 | a taint stops every unconcluded experiment that targets the host and changes no other; the aborts are exactly their live unasked instances; the registry takes the flag |
| Dispatcher.SetTaintIs | crates/master/src/registry.rs:52-56 | the flag of that registered host and nothing else; VALIDATE refuses a host from its taint on |
| Dispatcher.Dispatcher.Halt | crates/master/src/dispatch.rs:324-347 | not found, already concluded, or that one record stopped, with aborts for exactly the instances newly asked |
| Dispatcher.Dispatcher.ResolveDeadline | crates/master/src/dispatch.rs:352-390 | that one record is concluded afterwards; exactly its live instances get an abort |
| Dispatcher.Dispatcher.StartExperiment | crates/master/src/dispatch.rs:123-149 | accepted exactly when there is something to do and every action is sound; then one new record under a new id and one frame per instance; otherwise every failing check is named and nothing changes |
| Sessions.SessionMap.Reserve | crates/master/src/sessions.rs:38-42 | no two streams share an epoch |
| Sessions.SessionMap.Enter | crates/master/src/sessions.rs:38-42 | the stream that enters last is the current one |
| Sessions.SessionMap.RemoveIfCurrent | crates/master/src/sessions.rs:50-55 | removal only by the current owner |
| Sessions.ConnectedIff | crates/master/src/sessions.rs:20-24 | a host is connected exactly when its last stream to enter the map has not left |
| Sessions.LateCloseEvictsNobody | crates/master/src/sessions.rs:43-55 | a superseded stream that closes late changes nothing |
| Sessions.LatestEpochMayLose | crates/master/src/sessions.rs:38-42 | the current epoch need not be the latest reserved |
| Params.ValidIffConforms | crates/fault/src/params.rs:68-90 | the check accepts exactly the conforming parameters; an undeclared name is reported before anything else, then the first declared name that is missing or of another type |
| Params.MatchesIff | crates/fault/src/params.rs:26-32 | which values are of which type, integers being those of 64 bits, signed or unsigned |
| Hostnames.JoinSplit | crates/proto/src/lib.rs:105-107 | splitting a name into labels loses nothing |
| Hostnames.ParseIsRfc1123 | crates/proto/src/lib.rs:97-109 | parsing accepts exactly the RFC 1123 names (with the RFC 1035 size limits), once trimmed |
| Hostnames.ParseLimits | crates/proto/src/lib.rs:66-109 | in characters: at most 253, in labels of 1 to 63 letters, digits and inner hyphens |
| Hostnames.TrimIs | crates/proto/src/lib.rs:97-98 | trimming takes all white space off both ends and nothing else |
| Hostnames.ParsedIsIdSafe | crates/proto/src/lib.rs:97-109 | a parsed hostname is id-safe, free of `:`, and parses to itself |
| Hostnames.IdSafeParsesToItself | crates/master/src/experiment.rs:104-109 | an id-safe target that parses is its own name |
| Minting.DigitsReadBack | crates/master/src/experiment.rs:97-99 | decimal numbers in ids can be read back |
| Minting.OwnerIff | crates/master/src/dispatch.rs:440-446 | the owner of an id is an experiment exactly when the id reads that experiment, `:`, something |
| Charset.RefusedIdIff | crates/agent/src/supervisor.rs:159-165 | the agent refuses exactly the empty id, the two directory names, and ids with any other character than letters, digits, `.`, `_`, `:` and `-` |
| Minting.MintedIdRoundTrip | crates/agent/src/supervisor.rs:159-165 | the agent accepts every minted id, and the master finds its experiment again |
| Minting.IdsAreInjective | crates/master/src/experiment.rs:97-99 | different (experiment, host, action) triples have different ids |
| Minting.MintIsInjective | crates/master/src/experiment.rs:71-73 | an experiment id determines its accept time and sequence number |
| Validation.GatherHostFacts | crates/master/src/dispatch.rs:151-175 | for exactly the targets that parse: registered, connected and tainted as the registry and the sessions have it |
| Validation.CheckHosts | crates/master/src/experiment.rs:261-292 | duplicate, then charset, then the first failing host fact |
| Validation.Validate | crates/master/src/experiment.rs:221-295 | the list holds exactly the failing checks |
| Validation.HostFailsAsItIs | crates/master/src/experiment.rs:261-292 | a target is listed as unknown, disconnected or tainted exactly by what the registry and the sessions say of it |
| Validation.AcceptedIff | crates/master/src/experiment.rs:221-295 | VALIDATE accepts exactly the definitions with something to do in which every action is sound |
| Validation.AcceptedActionIsSound | crates/master/src/experiment.rs:221-295 | an accepted action has distinct, id-safe hosts, each registered, not quarantined in the registry and connected, and a plugin that fits |
| Validation.AcceptedPassesSetup | crates/agent/src/supervisor.rs:307-335 | with the same catalog, an accepted action passes the agent's setup exactly when the host is not tainted by then |
| Validation.SetupObjects | crates/agent/src/supervisor.rs:307-335 | setup refuses exactly when there is something to object to, and names the first objection in its order |
| Experiments.MintExperiment | crates/master/src/experiment.rs:422-458 | the minting loops build the record that the lemmas below are about |
| Experiments.NoTargetIsDropped | crates/master/src/experiment.rs:430-448 | minting drops no target of an accepted definition |
| Experiments.MintedIsGood | crates/master/src/experiment.rs:422-458 | an accepted definition mints a good record: every instance with its id, host and action, PENDING and unasked, pairwise distinct ids, something live |
| Experiments.MintedStarts | crates/master/src/dispatch.rs:123-149 | every run of an accepted experiment starts where the composition theorems start |
| Experiments.EveryExperimentConcludes | crates/master/src/dispatch.rs:227-234 | deadline totality from the definition on |
| Experiments.RunFaults | crates/master/src/dispatch.rs:179-213 | one frame per instance, in order, with the catalog's digest and the action's duration |
| Experiments.WindowCovers | crates/master/src/experiment.rs:404-417 | the deadline window covers duration and grace of every action |
| Experiments.WindowIsNeeded | crates/master/src/experiment.rs:404-417 | the window is that of some action |
| Experiments.DeadlineIs | crates/master/src/experiment.rs:404-417 | the deadline leaves every action its duration, its grace and the margin, and some action needs exactly that |
| Experiments.SalvoIsWelcome | crates/agent/src/supervisor.rs:179-201 | every dispatched frame carries its action's plugin at the catalog's digest, parameters, duration and grace, has an id the agent accepts, passes setup on an untainted host, and its dead-man does not outlast the master's deadline |
| Composition.StepKeeps | crates/master/src/dispatch.rs:236-306 | every step of master, agents or network keeps the joint invariant |
| Composition.CleanVerdictIsTrue | crates/master/src/experiment.rs:552-573 | COMPLETED or ABORTED means that no instance's fault is on its host; COMPLETED means that every agent sent DONE |
| Composition.OnlyErrorHidesAFault | crates/master/src/experiment.rs:552-573 | an experiment that has concluded over a fault still on its host concluded as ERROR |

## Left out

- gRPC and HTTP planes, CLI, TUI, configuration, rendering, end-to-end tests: input and output only.
- Process spawning, pipe draining and timeouts: an invocation is an oracle that exits, times out, is signalled or fails.
- An agent crash kills no plugin process in the model; what a process left running does afterwards is not modelled beyond its instance staying `dirty`.
- sha256, JSON and YAML: a digest is a string equal on both sides or not, parameters are a list of tagged values, and the parameters that arrive are those that were sent.
- Reason texts: reasons are structured values, from which the original's sentences can be written; the reasons that setup and an unreadable entry give are fixed texts.
- The digest in a status frame and the reason in a taint frame: a frame carries id, state and reason, or that the host is tainted.
- Integer widths: times and durations are unbounded, except the saturating addition of the loss threshold, which is modelled.
- Dispatcher.Dispatcher.HandleInstanceReport: of the calls that may come between two statuses, the start of a new experiment is not among them; it touches no existing record.
- A journal file whose content names another id than its file: the agent writes none, and the model assumes none.
- Telemetry and log frames of plugins.
- The carry buffer of a reconnecting session, heartbeats and backoff: status delivery is lossy in the model anyway.
- The stop channel: aborts appear where the shell drains them, while a process runs or the instance waits; one that arrives in between is drained at the next such place.
- Shell.EventLoop: takes the end of its ACTIVE wait from the outside; what that end can be is proved separately in Timer.
- Two RunFault frames of one id consumed in different lives of an agent are allowed in AgentSystem and named in `readmitted`; the composition excludes them for its own experiment, since the master never re-issues one.
- Relaying of an operator's taint clear by the master: the clear itself is an action of AgentSystem.
- Sending: a frame to a host without a session is lost; sessions and records are not coupled.
