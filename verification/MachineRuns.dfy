/** What holds of the state machine over every event sequence, of any length and any content, from
    any state: no assumption is made here about the shell that feeds it. */
module MachineRuns {
  import opened Lifecycle
  import opened Machine

  // ----- Running in two parts -----

  lemma {:induction false} RunAppend(state: State, first: seq<Event>, second: seq<Event>)
    ensures Run(state, first + second) ==
            (Run(Run(state, first).0, second).0, Run(state, first).1 + Run(Run(state, first).0, second).1)
    decreases |first|
  {
    if first == [] {
      assert first + second == second;
      assert [] + Run(state, second).1 == Run(state, second).1;
    } else {
      assert (first + second)[1..] == first[1..] + second;
      var (next, effects) := Step(state, first[0]);
      RunAppend(next, first[1..], second);
      var middle, last := Run(next, first[1..]).1, Run(Run(next, first[1..]).0, second).1;
      assert effects + (middle + last) == (effects + middle) + last;
    }
  }

  // ----- Termination measure and invocation bound -----

  /** The lifecycle rank, then the recovery commands still to run, then the retry left, flattened
      into one number: two per remaining command outweigh the retry a new command gains. */
  function Measure(state: State): nat {
    match state
    case Pending => 10
    case PreflightInstall(_) => 9
    case PreflightRuntime(_) => 8
    case WritingJournal(_) => 7
    case Injecting(_) => 6
    case Active => 5
    case Recovering(rec) => 1 + 2 * |rec.remaining| + (if rec.retried then 0 else 1)
    case _ => 0
  }

  lemma StepSpendsMeasure(state: State, event: Event)
    ensures Measure(Step(state, event).0) <= Measure(state)
    ensures Step(state, event).1 != [] ==> Measure(Step(state, event).0) < Measure(state)
    ensures |Step(state, event).1| <= 3
  {
    if state.Recovering? && event.CommandFinished? && state.rec.remaining != [] {
      assert |state.rec.remaining[1..]| == |state.rec.remaining| - 1;
    }
  }

  function CountCommand(commands: seq<PluginCommand>, command: PluginCommand): nat {
    if commands == [] then 0
    else (if commands[0] == command then 1 else 0) + CountCommand(commands[1..], command)
  }

  function Hit(effect: Effect, command: PluginCommand): nat {
    if effect.Invoke? && effect.command == command then 1 else 0
  }

  /** How often `command` is invoked by `effects`. */
  function Invocations(effects: seq<Effect>, command: PluginCommand): nat {
    if effects == [] then 0
    else Hit(effects[0], command) + Invocations(effects[1..], command)
  }

  lemma {:induction false} InvocationsAppend(a: seq<Effect>, b: seq<Effect>, command: PluginCommand)
    ensures Invocations(a + b, command) == Invocations(a, command) + Invocations(b, command)
  {
    if a == [] {
      assert a + b == b;
    } else {
      assert (a + b)[1..] == a[1..] + b;
      InvocationsAppend(a[1..], b, command);
    }
  }

  /** The places at which `command` is invoked. */
  function Places(effects: seq<Effect>, command: PluginCommand): set<int> {
    set k | 0 <= k < |effects| && effects[k].Invoke? && effects[k].command == command
  }

  lemma OneMorePlace(effects: seq<Effect>, effect: Effect, command: PluginCommand)
    ensures Places(effects + [effect], command) ==
            Places(effects, command) + if effect.Invoke? && effect.command == command then {|effects|} else {}
  {
  }

  /** That many there are. */
  lemma {:induction false} InvocationsCount(effects: seq<Effect>, command: PluginCommand)
    ensures Invocations(effects, command) == |Places(effects, command)|
  {
    if effects != [] {
      var last := |effects| - 1;
      assert effects == effects[..last] + [effects[last]];
      InvocationsCount(effects[..last], command);
      InvocationsAppend(effects[..last], [effects[last]], command);
      UnfoldInvocations([effects[last]], command);
      OneMorePlace(effects[..last], effects[last], command);
      assert last !in Places(effects[..last], command);
      hide Places, Invocations;
    }
  }

  /** The most often `command` can still be invoked from `state`. */
  function Budget(state: State, command: PluginCommand): nat {
    match state
    case Pending => FullBudget(command)
    case PreflightInstall(_) => if command.Preflight? then 1 else FullBudget(command)
    case PreflightRuntime(_) | WritingJournal(_) => if command.Preflight? then 0 else FullBudget(command)
    case Injecting(_) | Active => if command.Abort? || command.Cleanup? then 2 else 0
    case Recovering(rec) =>
      (if rec.current == command && !rec.retried then 1 else 0) + 2 * CountCommand(rec.remaining, command)
    case _ => 0
  }

  function FullBudget(command: PluginCommand): nat {
    match command
    case Preflight | Abort | Cleanup => 2
    case Inject => 1
    case Report => 0
  }

  ghost predicate StartsRecovery(t: Transition) {
    exists cause, reason :: t == StartRecovery(cause, reason)
  }

  /** A recovery that starts invokes one command and keeps the rest for later. */
  lemma RecoveryStartSpends(t: Transition, command: PluginCommand)
    requires StartsRecovery(t)
    ensures Invocations(t.1, command) + Budget(t.0, command) <= if command.Abort? || command.Cleanup? then 2 else 0
  {
    assert CountCommand([PluginCommand.Cleanup], command) == if command.Cleanup? then 1 else 0 by {
      assert [PluginCommand.Cleanup][1..] == [];
    }
    UnfoldInvocations(t.1, command);
  }

  lemma RecoverySpendsBudget(rec: Recovery, event: Event, command: PluginCommand)
    ensures var (next, effects) := StepRecovering(rec, event);
            Invocations(effects, command) + Budget(next, command) <= Budget(State.Recovering(rec), command)
  {
    UnfoldInvocations(StepRecovering(rec, event).1, command);
  }

  lemma EndingSpendsBudget(state: State, event: Event, command: PluginCommand)
    requires (state.Injecting? || state.Active?) && !Step(state, event).0.Recovering?
    ensures Invocations(Step(state, event).1, command) + Budget(Step(state, event).0, command) <= Budget(state, command)
  {
    UnfoldInvocations(Step(state, event).1, command);
  }

  lemma StepSpendsBudget(state: State, event: Event, command: PluginCommand)
    ensures Invocations(Step(state, event).1, command) + Budget(Step(state, event).0, command) <= Budget(state, command)
  {
    var (next, effects) := Step(state, event);
    hide StepRecovering;
    if state.Recovering? {
      RecoverySpendsBudget(state.rec, event, command);
    } else if next.Recovering? {
      assert StartsRecovery(Step(state, event));
      hide Step, Invocations;
      RecoveryStartSpends((next, effects), command);
    } else if state.Injecting? || state.Active? {
      EndingSpendsBudget(state, event, command);
    } else {
      UnfoldInvocations(effects, command);
    }
  }

  lemma UnfoldInvocations(effects: seq<Effect>, command: PluginCommand)
    requires |effects| <= 3
    ensures |effects| == 1 ==> Invocations(effects, command) == Hit(effects[0], command)
    ensures |effects| == 2 ==> Invocations(effects, command) == Hit(effects[0], command) + Hit(effects[1], command)
    ensures |effects| == 3 ==> Invocations(effects, command)
                               == Hit(effects[0], command) + Hit(effects[1], command) + Hit(effects[2], command)
  {
    if |effects| > 1 {
      assert effects == [effects[0]] + effects[1..];
      UnfoldInvocations(effects[1..], command);
    }
  }

  /** Any event sequence issues at most the budget of its first state. */
  lemma {:induction false} InvocationBound(state: State, events: seq<Event>, command: PluginCommand)
    ensures Invocations(Run(state, events).1, command) + Budget(Run(state, events).0, command)
            <= Budget(state, command)
    decreases |events|
  {
    if events != [] {
      var (next, effects) := Step(state, events[0]);
      StepSpendsBudget(state, events[0], command);
      InvocationBound(next, events[1..], command);
      InvocationsAppend(effects, Run(next, events[1..]).1, command);
    }
  }

  /** From PENDING: at most 2 preflights, 1 inject, 2 aborts, 2 cleanups and no report, ever. */
  lemma LifetimeInvocationBound(events: seq<Event>)
    ensures Invocations(Run(State.Pending, events).1, PluginCommand.Preflight) <= 2
    ensures Invocations(Run(State.Pending, events).1, PluginCommand.Inject) <= 1
    ensures Invocations(Run(State.Pending, events).1, PluginCommand.Abort) <= 2
    ensures Invocations(Run(State.Pending, events).1, PluginCommand.Cleanup) <= 2
    ensures Invocations(Run(State.Pending, events).1, PluginCommand.Report) == 0
  {
    InvocationBound(State.Pending, events, PluginCommand.Preflight);
    InvocationBound(State.Pending, events, PluginCommand.Inject);
    InvocationBound(State.Pending, events, PluginCommand.Abort);
    InvocationBound(State.Pending, events, PluginCommand.Cleanup);
    InvocationBound(State.Pending, events, PluginCommand.Report);
  }

  // ----- Reachable recoveries -----

  /** The only recovery shapes the machine ever builds. */
  predicate Wf(state: State) {
    state.Recovering? ==>
      || (state.rec.current.Cleanup? && state.rec.remaining == [])
      || (state.rec.current.Abort? && state.rec.remaining == [PluginCommand.Cleanup] && !state.rec.outcome.Done?)
  }

  lemma StepKeepsWf(state: State, event: Event)
    requires Wf(state)
    ensures Wf(Step(state, event).0)
  {
    if state.Recovering? && state.rec.remaining != [] {
      assert state.rec.remaining[1..] == [];
    }
  }

  lemma {:induction false} RunKeepsWf(state: State, events: seq<Event>)
    requires Wf(state)
    ensures Wf(Run(state, events).0)
    decreases |events|
  {
    if events != [] {
      StepKeepsWf(state, events[0]);
      RunKeepsWf(Step(state, events[0]).0, events[1..]);
    }
  }

  // ----- Taint is exactly a recovery command failing twice -----

  predicate Taints(effects: seq<Effect>) {
    exists k :: 0 <= k < |effects| && effects[k].MarkTainted?
  }

  /** `event` says that the recovery command now running failed. */
  predicate FailsCurrent(state: State, event: Event) {
    && state.Recovering?
    && match event
       case CommandFinished(command, disposition) => command == state.rec.current && !disposition.Success?
       case InvocationFailed(command, _) => command == state.rec.current
       case InvokeRejected(command, _) => command == state.rec.current
       case _ => false
  }

  function NewFailure(state: State, event: Event, command: PluginCommand): nat {
    if FailsCurrent(state, event) && state.rec.current == command then 1 else 0
  }

  /** How many failures of `command`, while it was the running recovery command, a run consumes. */
  function Failures(state: State, events: seq<Event>, command: PluginCommand): nat
    decreases |events|
  {
    if events == [] then 0
    else
      NewFailure(state, events[0], command) + Failures(Step(state, events[0]).0, events[1..], command)
  }

  /** Failures of `command` that `state` remembers from before. */
  function Remembered(state: State, command: PluginCommand): nat {
    if state.Recovering? && state.rec.current == command && state.rec.retried then 1 else 0
  }

  predicate StillToRun(state: State, command: PluginCommand) {
    && !state.IsTerminal()
    && (state.Recovering? ==> state.rec.current == command || command in state.rec.remaining)
  }

  /** A command that recovery has moved past is not counted again. */
  lemma {:induction false} NoFailuresOfOthers(state: State, events: seq<Event>, command: PluginCommand)
    requires Wf(state) && !StillToRun(state, command)
    ensures Failures(state, events, command) == 0
    decreases |events|
  {
    if events != [] {
      StepKeepsWf(state, events[0]);
      NoFailuresOfOthers(Step(state, events[0]).0, events[1..], command);
    }
  }

  function Tally(state: State, events: seq<Event>, command: PluginCommand): nat {
    Failures(state, events, command) + Remembered(state, command)
  }

  lemma RememberedStep(state: State, event: Event, command: PluginCommand)
    requires Wf(state)
    ensures var (next, effects) := Step(state, event);
            var known := NewFailure(state, event, command) + Remembered(state, command);
            if effects != [] && effects[0].MarkTainted? then
              state.Recovering? && next.IsTerminal() && known == (if state.rec.current == command then 2 else 0)
            else
              !Taints(effects)
              && (known == Remembered(next, command)
                  || (known <= 1 && Remembered(next, command) == 0 && !StillToRun(next, command)))
  {
  }

  lemma TallyStep(state: State, events: seq<Event>, command: PluginCommand)
    requires Wf(state) && events != []
    ensures var (next, effects) := Step(state, events[0]);
            if Taints(effects) then
              state.Recovering? && Tally(state, events, command) == (if state.rec.current == command then 2 else 0)
            else
              || Tally(state, events, command) == Tally(next, events[1..], command)
              || (Tally(state, events, command) <= 1 && Tally(next, events[1..], command) == 0)
  {
    var (next, effects) := Step(state, events[0]);
    assert effects != [] && effects[0].MarkTainted? ==> Taints(effects);
    RememberedStep(state, events[0], command);
    StepKeepsWf(state, events[0]);
    if !StillToRun(next, command) {
      NoFailuresOfOthers(next, events[1..], command);
    }
  }

  /** Over any run, the host is tainted exactly when one recovery command failed twice. */
  lemma {:induction false} TaintIffTwice(state: State, events: seq<Event>)
    requires Wf(state)
    ensures Taints(Run(state, events).1) <==> exists command :: Tally(state, events, command) >= 2
    ensures forall command :: Tally(state, events, command) <= 2
    decreases |events|
  {
    if events == [] {
      assert forall command :: Tally(state, events, command) <= 1;
    } else {
      var (next, effects) := Step(state, events[0]);
      StepKeepsWf(state, events[0]);
      TaintIffTwice(next, events[1..]);
      TaintsAppend(effects, Run(next, events[1..]).1);
      forall command
        ensures Tally(state, events, command) <= 2
        ensures !Taints(effects) ==>
                  (Tally(state, events, command) >= 2 <==> Tally(next, events[1..], command) >= 2)
      {
        TallyStep(state, events, command);
      }
      if Taints(effects) {
        assert state.Recovering?;
        TallyStep(state, events, state.rec.current);
        assert Tally(state, events, state.rec.current) >= 2;
      }
    }
  }

  lemma TaintsAppend(a: seq<Effect>, b: seq<Effect>)
    ensures Taints(a + b) <==> Taints(a) || Taints(b)
  {
    if Taints(a) {
      var k :| 0 <= k < |a| && a[k].MarkTainted?;
      assert (a + b)[k].MarkTainted?;
    }
    if Taints(b) {
      var k :| 0 <= k < |b| && b[k].MarkTainted?;
      assert (a + b)[|a| + k].MarkTainted?;
    }
  }

  /** A clean ending never quarantines the host. */
  lemma {:induction false} CleanEndingNeverTaints(state: State, events: seq<Event>)
    requires Run(state, events).0.Done? || Run(state, events).0.Aborted?
    ensures !Taints(Run(state, events).1)
    decreases |events|
  {
    if events != [] {
      var (next, effects) := Step(state, events[0]);
      CleanEndingNeverTaints(next, events[1..]);
      TaintsAppend(effects, Run(next, events[1..]).1);
      if Taints(effects) {
        TerminalAbsorbs(next, events[1..]);
      }
    }
  }

  lemma {:induction false} TerminalAbsorbs(state: State, events: seq<Event>)
    requires state.IsTerminal()
    ensures Run(state, events) == (state, [])
    decreases |events|
  {
    if events != [] {
      TerminalAbsorbs(state, events[1..]);
      assert Step(state, events[0]).1 + Run(state, events[1..]).1 == [];
    }
  }

  // ----- The status stream -----

  function Statuses(effects: seq<Effect>): seq<InstanceState> {
    if effects == [] then []
    else Said(effects[0]) + Statuses(effects[1..])
  }

  lemma {:induction false} StatusesAppend(a: seq<Effect>, b: seq<Effect>)
    ensures Statuses(a + b) == Statuses(a) + Statuses(b)
  {
    if a == [] {
      assert a + b == b;
    } else {
      assert (a + b)[1..] == a[1..] + b;
      StatusesAppend(a[1..], b);
    }
  }

  /** Every status lies strictly above the one before it, and the first above `floor`. */
  predicate Climbs(floor: nat, statuses: seq<InstanceState>) {
    forall k :: 0 <= k < |statuses| ==> statuses[k].Rank() > if k == 0 then floor else statuses[k - 1].Rank()
  }

  function LastOr(default: InstanceState, statuses: seq<InstanceState>): InstanceState {
    if statuses == [] then default else statuses[|statuses| - 1]
  }

  function Said(effect: Effect): seq<InstanceState> {
    if effect.EmitStatus? then [effect.state] else []
  }

  lemma UnfoldStatuses(effects: seq<Effect>)
    requires |effects| <= 3
    ensures |effects| == 1 ==> Statuses(effects) == Said(effects[0])
    ensures |effects| == 2 ==> Statuses(effects) == Said(effects[0]) + Said(effects[1])
    ensures |effects| == 3 ==> Statuses(effects) == Said(effects[0]) + Said(effects[1]) + Said(effects[2])
  {
    if |effects| > 0 {
      assert effects == [effects[0]] + effects[1..];
      UnfoldStatuses(effects[1..]);
    }
  }

  /** Nothing follows a terminal status. */
  predicate EndsInTerminalStatus(effects: seq<Effect>, terminal: InstanceState) {
    && effects != []
    && effects[|effects| - 1].EmitStatus?
    && effects[|effects| - 1].state == terminal
    && forall k :: 0 <= k < |effects| - 1 && effects[k].EmitStatus? ==> !effects[k].state.IsTerminal()
  }

  /** The effects of one step: at most one status, first when the instance goes on, last when it ends. */
  predicate StepShape(was: InstanceState, now: InstanceState, effects: seq<Effect>) {
    && |effects| <= 3
    && (now == was || now.Rank() > was.Rank())
    && if now == was then forall k :: 0 <= k < |effects| ==> !effects[k].EmitStatus?
       else if now.IsTerminal() then
         EndsInTerminalStatus(effects, now) && forall k :: 0 <= k < |effects| - 1 ==> !effects[k].EmitStatus?
       else
         && effects != [] && effects[0].EmitStatus? && effects[0].state == now
         && forall k :: 0 < k < |effects| ==> !effects[k].EmitStatus?
  }

  lemma RecoveryHasShape(rec: Recovery, event: Event)
    ensures var (next, effects) := StepRecovering(rec, event);
            StepShape(InstanceState.Recovering, next.InstanceStateOf(), effects)
  {
  }

  lemma StepHasShape(state: State, event: Event)
    ensures var (next, effects) := Step(state, event);
            StepShape(state.InstanceStateOf(), next.InstanceStateOf(), effects)
  {
    hide StepRecovering;
    if state.Recovering? {
      RecoveryHasShape(state.rec, event);
    }
  }

  lemma ShapeStatuses(was: InstanceState, now: InstanceState, effects: seq<Effect>)
    requires StepShape(was, now, effects)
    ensures Statuses(effects) == if now == was then [] else [now]
  {
    UnfoldStatuses(effects);
  }

  lemma ClimbOneMore(was: InstanceState, now: InstanceState, s: seq<InstanceState>, t: seq<InstanceState>)
    requires s == (if now == was then [] else [now])
    requires now == was || now.Rank() > was.Rank()
    requires Climbs(now.Rank(), t)
    ensures Climbs(was.Rank(), s + t)
    ensures LastOr(was, s + t) == LastOr(now, t)
  {
    if s == [] {
      assert s + t == t;
    } else {
      forall k | 0 <= k < |s + t|
        ensures (s + t)[k].Rank() > if k == 0 then was.Rank() else (s + t)[k - 1].Rank()
      {
        if k > 0 {
          var m := k - 1;
          assert t[m].Rank() > if m == 0 then now.Rank() else t[m - 1].Rank();
          assert (s + t)[k] == t[m] && (s + t)[k - 1] == if m == 0 then now else t[m - 1];
        }
      }
    }
  }

  /** Over any run the statuses strictly climb the lifecycle order, and the last one is the
      machine's own state. So at most one status is terminal. */
  lemma {:induction false} StatusStream(state: State, events: seq<Event>)
    ensures Climbs(state.InstanceStateOf().Rank(), Statuses(Run(state, events).1))
    ensures LastOr(state.InstanceStateOf(), Statuses(Run(state, events).1)) == Run(state, events).0.InstanceStateOf()
    decreases |events|
  {
    if events != [] {
      var (next, effects) := Step(state, events[0]);
      var rest := Run(next, events[1..]).1;
      StepHasShape(state, events[0]);
      ShapeStatuses(state.InstanceStateOf(), next.InstanceStateOf(), effects);
      StatusStream(next, events[1..]);
      StatusesAppend(effects, rest);
      ClimbOneMore(state.InstanceStateOf(), next.InstanceStateOf(), Statuses(effects), Statuses(rest));
    }
  }

  /** The terminal status is the very last effect of the instance's life. */
  lemma {:induction false} TerminalStatusIsLastEffect(state: State, events: seq<Event>)
    requires !state.IsTerminal() && Run(state, events).0.IsTerminal()
    ensures EndsInTerminalStatus(Run(state, events).1, Run(state, events).0.InstanceStateOf())
    decreases |events|
  {
    var (next, effects) := Step(state, events[0]);
    StepHasShape(state, events[0]);
    if next.IsTerminal() {
      TerminalAbsorbs(next, events[1..]);
      assert effects + [] == effects;
    } else {
      TerminalStatusIsLastEffect(next, events[1..]);
      PrependToTerminal(effects, Run(next, events[1..]).1, Run(next, events[1..]).0.InstanceStateOf());
    }
  }

  lemma PrependToTerminal(effects: seq<Effect>, rest: seq<Effect>, terminal: InstanceState)
    requires EndsInTerminalStatus(rest, terminal)
    requires forall k :: 0 <= k < |effects| && effects[k].EmitStatus? ==> !effects[k].state.IsTerminal()
    ensures EndsInTerminalStatus(effects + rest, terminal)
  {
  }

  // ----- Stops -----

  /** A stop has been recorded, or the instance is over: it can no longer inject. */
  predicate Doomed(state: State) {
    match state
    case PreflightInstall(stop) => stop.Some?
    case PreflightRuntime(stop) => stop.Some?
    case WritingJournal(stop) => stop.Some?
    case Done | Aborted | Error => true
    case _ => false
  }

  lemma {:induction false} DoomedNeverInjects(state: State, events: seq<Event>)
    requires Doomed(state)
    ensures Doomed(Run(state, events).0)
    ensures Invocations(Run(state, events).1, PluginCommand.Inject) == 0
    decreases |events|
  {
    if events != [] {
      var (next, effects) := Step(state, events[0]);
      UnfoldInvocations(effects, PluginCommand.Inject);
      DoomedNeverInjects(next, events[1..]);
      InvocationsAppend(effects, Run(next, events[1..]).1, PluginCommand.Inject);
    }
  }

  lemma NoInjectBefore(events: seq<Event>)
    requires Run(State.Pending, events).0.InstanceStateOf().Rank() < InstanceState.Injecting.Rank()
    ensures Invocations(Run(State.Pending, events).1, PluginCommand.Inject) == 0
  {
    InvocationBound(State.Pending, events, PluginCommand.Inject);
  }

  lemma StopDooms(state: State, cause: StopCause)
    requires state.InstanceStateOf().Rank() < InstanceState.Injecting.Rank()
    ensures var (next, effects) := Run(state, [StopRequested(cause)]);
            Doomed(next) && Invocations(effects, PluginCommand.Inject) == 0
  {
    var (next, effects) := Step(state, StopRequested(cause));
    assert [StopRequested(cause)][1..] == [];
    assert effects + [] == effects;
    UnfoldInvocations(effects, PluginCommand.Inject);
  }

  /** A stop consumed anywhere before INJECTING means that inject is never invoked. */
  lemma StopBeforeInjectIsHonoured(before: seq<Event>, cause: StopCause, after: seq<Event>)
    requires Run(State.Pending, before).0.InstanceStateOf().Rank() < InstanceState.Injecting.Rank()
    ensures Invocations(Run(State.Pending, before + [StopRequested(cause)] + after).1, PluginCommand.Inject) == 0
    ensures !Run(State.Pending, before + [StopRequested(cause)] + after).0.Injecting?
  {
    var stop := [StopRequested(cause)];
    var (reached, first) := Run(State.Pending, before);
    var (next, second) := Run(reached, stop);
    NoInjectBefore(before);
    StopDooms(reached, cause);
    DoomedNeverInjects(next, after);
    assert !Run(next, after).0.Injecting?;
    hide Run, Invocations, Doomed;
    RunAppend(State.Pending, before, stop);
    RunAppend(State.Pending, before + stop, after);
    InvocationsAppend(first, second, PluginCommand.Inject);
    InvocationsAppend(first + second, Run(next, after).1, PluginCommand.Inject);
  }

  predicate PastActive(state: State) {
    (state.Injecting? && state.stop.Some?) || state.Recovering? || state.IsTerminal()
  }

  lemma {:induction false} PastActiveStays(state: State, events: seq<Event>)
    requires PastActive(state)
    ensures PastActive(Run(state, events).0)
    ensures InstanceState.Active !in Statuses(Run(state, events).1)
    decreases |events|
  {
    if events != [] {
      var (next, effects) := Step(state, events[0]);
      StepHasShape(state, events[0]);
      ShapeStatuses(state.InstanceStateOf(), next.InstanceStateOf(), effects);
      PastActiveStays(next, events[1..]);
      StatusesAppend(effects, Run(next, events[1..]).1);
    }
  }

  /** A stop consumed in INJECTING means that ACTIVE is never entered, now or later. */
  lemma StopWhileInjectingIsHonoured(state: State, cause: StopCause, after: seq<Event>)
    requires state.Injecting?
    ensures !Run(state, [StopRequested(cause)] + after).0.Active?
    ensures InstanceState.Active !in Statuses(Run(state, [StopRequested(cause)] + after).1)
  {
    var events := [StopRequested(cause)] + after;
    assert events[1..] == after;
    PastActiveStays(Step(state, events[0]).0, after);
    assert [] + Run(Step(state, events[0]).0, after).1 == Run(Step(state, events[0]).0, after).1;
  }

  /** Between PENDING and ACTIVE a stop is recorded, to be honoured when the pending answer comes. */
  predicate Records(state: State) {
    state.PreflightInstall? || state.PreflightRuntime? || state.WritingJournal? || state.Injecting?
  }

  function FirstStopIn(events: seq<Event>): Option<StopCause> {
    if events == [] then None
    else if events[0].StopRequested? then Some(events[0].cause)
    else FirstStopIn(events[1..])
  }

  /** The first stop counts: whatever comes after it, and however far the instance has gone since, the
      stop on record is the first one there was. */
  lemma {:induction false} FirstStopCounts(state: State, events: seq<Event>)
    requires Records(state) && Records(Run(state, events).0)
    ensures Run(state, events).0.stop == if state.stop.Some? then state.stop else FirstStopIn(events)
    decreases |events|
  {
    if events != [] {
      var next := Step(state, events[0]).0;
      if Records(next) {
        FirstStopCounts(next, events[1..]);
      } else {
        NoWayBack(next, events[1..]);
      }
    }
  }

  /** What an instance says that was stopped early: never started, or never injected, and by what. */
  lemma StoppedEarlySays(cause: StopCause)
    ensures Step(State.Pending, StopRequested(cause)) ==
            (State.Aborted, [EmitStatus(InstanceState.Aborted, Some(NeverStarted(cause)))])
    ensures forall state :: state in {State.PreflightInstall(Some(cause)), State.PreflightRuntime(Some(cause))} ==>
              Step(state, CommandFinished(PluginCommand.Preflight, Success)) ==
              (State.Aborted, [EmitStatus(InstanceState.Aborted, Some(NeverInjected(cause)))])
    ensures Step(State.WritingJournal(Some(cause)), JournalWritten) ==
            (State.Aborted, [RemoveJournal, EmitStatus(InstanceState.Aborted, Some(NeverInjected(cause)))])
  {
  }

  /** There is no way back from ACTIVE. */
  lemma {:induction false} NoWayBack(state: State, events: seq<Event>)
    requires state.Active? || state.Recovering? || state.IsTerminal()
    ensures !Records(Run(state, events).0)
    decreases |events|
  {
    if events != [] {
      NoWayBack(Step(state, events[0]).0, events[1..]);
    }
  }

  // ----- What the shell owes a state -----

  /** The effect whose result moves `state` on; none while ACTIVE, PENDING or terminal. */
  function Owed(state: State): Option<Effect> {
    match state
    case PreflightInstall(_) => Some(Invoke(PluginCommand.Preflight, Install))
    case PreflightRuntime(_) => Some(Invoke(PluginCommand.Preflight, Runtime))
    case WritingJournal(_) => Some(WriteJournal)
    case Injecting(_) => Some(Invoke(PluginCommand.Inject, Runtime))
    case Recovering(rec) => Some(Invoke(rec.current, Runtime))
    case _ => None
  }

  /** `event` reports the result of `effect`. */
  predicate Answers(effect: Effect, event: Event) {
    match effect
    case Invoke(command, _) =>
      (event.CommandFinished? || event.InvocationFailed? || event.InvokeRejected?) && event.command == command
    case WriteJournal => event.JournalWritten? || event.JournalWriteFailed?
    case _ => false
  }

  /** The events a state waits for: a stop, its owed result, or the setup result while PENDING. */
  predicate Awaited(state: State, event: Event) {
    || event.StopRequested?
    || (state.Pending? && (event.SetupOk? || event.SetupFailed?))
    || (Owed(state).Some? && Answers(Owed(state).value, event))
  }

  /** An unawaited event is ignored, except for one family: INJECTING also acts on a failed or
      refused invocation of any other command. The documentation promises that every such
      combination is ignored; this is exactly when it is. */
  lemma UnawaitedIgnoredExactly(state: State, event: Event)
    requires !Awaited(state, event)
    ensures Step(state, event) == (state, []) <==>
            !(state.Injecting? && (event.InvocationFailed? || event.InvokeRejected?))
  {
  }

  /** Inject is running, yet a refused cleanup ends the instance and drops its journal entry. */
  lemma StrayRefusalEndsInjecting()
    ensures !Awaited(State.Injecting(None), InvokeRejected(PluginCommand.Cleanup, ""))
    ensures Step(State.Injecting(None), InvokeRejected(PluginCommand.Cleanup, ""))
            == AbortedUnjournaled(InjectRefused(""))
  {
  }
}
