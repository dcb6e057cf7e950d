/** The pure per-instance state machine: `Step(state, event)` gives the next state and the effects
    the shell must perform. Status reasons are structured values here; the original renders each of
    them to text. */
module Machine {
  import opened Lifecycle

  // ----- Stop causes and outcomes -----

  datatype StopCause = DurationElapsed | OperatorAbort | MasterLost | Deadman
  {
    /** The terminal outcome recovery aims for when stopped by this cause. */
    function TargetOutcome(): Outcome {
      match this
      case DurationElapsed => Outcome.Done
      case OperatorAbort | MasterLost => Outcome.Aborted
      case Deadman => Outcome.Error
    }

    /** A graceful stop is an orderly cleanup; every other stop aborts first. */
    function RecoverySteps(): (PluginCommand, seq<PluginCommand>) {
      match this
      case DurationElapsed => (PluginCommand.Cleanup, [])
      case OperatorAbort | MasterLost | Deadman => (PluginCommand.Abort, [PluginCommand.Cleanup])
    }
  }

  datatype Outcome = Done | Aborted | Error
  {
    function TerminalState(): InstanceState {
      match this
      case Done => InstanceState.Done
      case Aborted => InstanceState.Aborted
      case Error => InstanceState.Error
    }

    function Terminal(): State {
      match this
      case Done => State.Done
      case Aborted => State.Aborted
      case Error => State.Error
    }
  }

  /** Why an invocation did not succeed: its exit, or what the runner said. */
  datatype Detail = Exit(disposition: Disposition) | Said(text: string)

  datatype Reason =
    | Plain(text: string)
    | StoppedBy(cause: StopCause)
    | NeverStarted(cause: StopCause)
    | NeverInjected(cause: StopCause)
    | PreflightExit(phase: Phase, disposition: Disposition)
    | PreflightInvocation(text: string)
    | JournalRefusal(text: string)
    | InjectUnaffected
    | InjectRefused(text: string)
    | InjectExit(disposition: Disposition)
    | InjectInvocation(text: string)
    | RecoveryFailedTwice(command: PluginCommand, detail: Detail)
    | RecoveredAfterRestart

  // ----- States, events, effects -----

  datatype Recovery = Recovery(
    current: PluginCommand,
    remaining: seq<PluginCommand>,
    outcome: Outcome,
    retried: bool,
    reason: Reason)

  datatype State =
    | Pending
    | PreflightInstall(stop: Option<StopCause>)
    | PreflightRuntime(stop: Option<StopCause>)
    | WritingJournal(stop: Option<StopCause>)
    | Injecting(stop: Option<StopCause>)
    | Active
    | Recovering(rec: Recovery)
    | Done
    | Aborted
    | Error
  {
    /** The wire-visible lifecycle state. */
    function InstanceStateOf(): InstanceState {
      match this
      case Pending => InstanceState.Pending
      case PreflightInstall(_) | PreflightRuntime(_) | WritingJournal(_) => InstanceState.Preflight
      case Injecting(_) => InstanceState.Injecting
      case Active => InstanceState.Active
      case Recovering(_) => InstanceState.Recovering
      case Done => InstanceState.Done
      case Aborted => InstanceState.Aborted
      case Error => InstanceState.Error
    }

    predicate IsTerminal() {
      Done? || Aborted? || Error?
    }
  }

  datatype Event =
    | SetupOk
    | SetupFailed(why: string)
    | JournalWritten
    | JournalWriteFailed(why: string)
    | CommandFinished(command: PluginCommand, disposition: Disposition)
    | InvocationFailed(command: PluginCommand, why: string)
    | InvokeRejected(command: PluginCommand, why: string)
    | StopRequested(cause: StopCause)

  datatype Effect =
    | EmitStatus(state: InstanceState, reason: Option<Reason>)
    | Invoke(command: PluginCommand, phase: Phase)
    | WriteJournal
    | RemoveJournal
    | MarkTainted(why: Reason)

  type Transition = (State, seq<Effect>)

  // ----- The transition function -----

  function AbortedWith(reason: Reason): Transition {
    (State.Aborted, [EmitStatus(InstanceState.Aborted, Some(reason))])
  }

  /** Ends in ABORTED with the journal entry removed: the host holds no fault. */
  function AbortedUnjournaled(reason: Reason): Transition {
    (State.Aborted, [RemoveJournal, EmitStatus(InstanceState.Aborted, Some(reason))])
  }

  function StartRecovery(cause: StopCause, reason: Reason): Transition {
    var (current, remaining) := cause.RecoverySteps();
    (State.Recovering(Recovery(current, remaining, cause.TargetOutcome(), false, reason)),
     [EmitStatus(InstanceState.Recovering, Some(reason)), Invoke(current, Runtime)])
  }

  /** Where a journaled instance starts after an agent restart. */
  function ReplayRecovery(outcome: Outcome): Transition {
    (State.Recovering(Recovery(PluginCommand.Abort, [PluginCommand.Cleanup], outcome, false, RecoveredAfterRestart)),
     [EmitStatus(InstanceState.Recovering, Some(RecoveredAfterRestart)), Invoke(PluginCommand.Abort, Runtime)])
  }

  /** A stop already recorded is kept; only the first one counts. */
  function FirstStop(stop: Option<StopCause>, cause: StopCause): Option<StopCause> {
    if stop.Some? then stop else Some(cause)
  }

  function InPreflight(which: Phase, stop: Option<StopCause>): State {
    match which
    case Install => State.PreflightInstall(stop)
    case Runtime => State.PreflightRuntime(stop)
  }

  function StepPending(event: Event): Transition {
    match event
    case SetupOk =>
      (State.PreflightInstall(None),
       [EmitStatus(InstanceState.Preflight, None), Invoke(PluginCommand.Preflight, Install)])
    case SetupFailed(why) => AbortedWith(Plain(why))
    case StopRequested(cause) => AbortedWith(NeverStarted(cause))
    case _ => (State.Pending, [])
  }

  function StepPreflight(which: Phase, stop: Option<StopCause>, event: Event): Transition {
    match event
    case StopRequested(cause) => (InPreflight(which, FirstStop(stop, cause)), [])
    case CommandFinished(Preflight, Success) =>
      if stop.Some? then AbortedWith(NeverInjected(stop.value))
      else (match which
            case Install => (State.PreflightRuntime(None), [Invoke(PluginCommand.Preflight, Runtime)])
            case Runtime => (State.WritingJournal(None), [WriteJournal]))
    case CommandFinished(Preflight, disposition) => AbortedWith(PreflightExit(which, disposition))
    case InvocationFailed(Preflight, why) => AbortedWith(PreflightInvocation(why))
    case InvokeRejected(Preflight, why) => AbortedWith(PreflightInvocation(why))
    case _ => (InPreflight(which, stop), [])
  }

  function StepWritingJournal(stop: Option<StopCause>, event: Event): Transition {
    match event
    case StopRequested(cause) => (State.WritingJournal(FirstStop(stop, cause)), [])
    case JournalWritten =>
      if stop.Some? then AbortedUnjournaled(NeverInjected(stop.value))
      else (State.Injecting(None),
            [EmitStatus(InstanceState.Injecting, None), Invoke(PluginCommand.Inject, Runtime)])
    case JournalWriteFailed(why) => AbortedWith(JournalRefusal(why))
    case _ => (State.WritingJournal(stop), [])
  }

  function StepInjecting(stop: Option<StopCause>, event: Event): Transition {
    match event
    case StopRequested(cause) => (State.Injecting(FirstStop(stop, cause)), [])
    case CommandFinished(Inject, Success) =>
      if stop.Some? then StartRecovery(stop.value, StoppedBy(stop.value))
      else (State.Active, [EmitStatus(InstanceState.Active, None)])
    // Exit 20 asserts that the host is unaffected.
    case CommandFinished(Inject, InjectFailed) => AbortedUnjournaled(InjectUnaffected)
    // Any other exit leaves the host in an unknown state: recover, and end in ERROR.
    case CommandFinished(Inject, disposition) => StartRecovery(Deadman, InjectExit(disposition))
    case InvocationFailed(_, why) => StartRecovery(Deadman, InjectInvocation(why))
    case InvokeRejected(_, why) => AbortedUnjournaled(InjectRefused(why))
    case _ => (State.Injecting(stop), [])
  }

  function StepActive(event: Event): Transition {
    match event
    case StopRequested(cause) => StartRecovery(cause, StoppedBy(cause))
    case _ => (State.Active, [])
  }

  function StepRecovering(rec: Recovery, event: Event): Transition {
    match event
    case StopRequested(Deadman) => (State.Recovering(rec.(outcome := Outcome.Error)), [])
    case CommandFinished(command, disposition) =>
      if command != rec.current then (State.Recovering(rec), [])
      else if disposition != Success then RecoveryFailure(rec, Exit(disposition))
      else if rec.remaining == [] then
        (rec.outcome.Terminal(), [RemoveJournal, EmitStatus(rec.outcome.TerminalState(), Some(rec.reason))])
      else
        (State.Recovering(rec.(current := rec.remaining[0], remaining := rec.remaining[1..], retried := false)),
         [Invoke(rec.remaining[0], Runtime)])
    case InvocationFailed(command, why) =>
      if command == rec.current then RecoveryFailure(rec, Said(why)) else (State.Recovering(rec), [])
    case InvokeRejected(command, why) =>
      if command == rec.current then RecoveryFailure(rec, Said(why)) else (State.Recovering(rec), [])
    case _ => (State.Recovering(rec), [])
  }

  /** One idempotent retry of the current command, then quarantine and ERROR. */
  function RecoveryFailure(rec: Recovery, detail: Detail): Transition {
    if rec.retried then
      var reason := RecoveryFailedTwice(rec.current, detail);
      (State.Error, [MarkTainted(reason), RemoveJournal, EmitStatus(InstanceState.Error, Some(reason))])
    else
      (State.Recovering(rec.(retried := true)), [Invoke(rec.current, Runtime)])
  }

  function Step(state: State, event: Event): Transition {
    match state
    case Pending => StepPending(event)
    case PreflightInstall(stop) => StepPreflight(Install, stop, event)
    case PreflightRuntime(stop) => StepPreflight(Runtime, stop, event)
    case WritingJournal(stop) => StepWritingJournal(stop, event)
    case Injecting(stop) => StepInjecting(stop, event)
    case Active => StepActive(event)
    case Recovering(rec) => StepRecovering(rec, event)
    case Done | Aborted | Error => (state, [])
  }

  /** A whole run: every event in turn, with the effects of all steps in order. */
  function Run(state: State, events: seq<Event>): Transition
    decreases |events|
  {
    if events == [] then (state, [])
    else
      var (next, effects) := Step(state, events[0]);
      var (last, rest) := Run(next, events[1..]);
      (last, effects + rest)
  }
}
