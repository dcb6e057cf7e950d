/** What an instance does, told as a straight line: a script says, command by command, what the answers of
    a world lead to, with no machine, no queues and no states in between. Every run of the event-queue loop,
    and every replay, performs exactly its script and comes to the script's end. */
module Scripts {
  import opened Lifecycle
  import opened Machine
  import opened MachineRuns
  import opened Task
  import opened TaskRuns
  import opened Worlds

  /** Effects in order, and the terminal state after them. */
  datatype Story = Story(effects: seq<Effect>, last: State)

  function Then(effects: seq<Effect>, story: Story): Story {
    Story(effects + story.effects, story.last)
  }

  // ----- The script -----

  /** Why a command did not succeed, if it did not. */
  function Failure(gate: Gate): Option<Detail> {
    match gate
    case Rejected(why) => Some(Said(why))
    case GateFailed(why) => Some(Said(why))
    case Ran(_, Exited(Success)) => None
    case Ran(_, Exited(disposition)) => Some(Exit(disposition))
    case Ran(_, TimedOut) => Some(Said("killed after invocation timeout"))
    case Ran(_, Signalled) => Some(Said("terminated by signal"))
    case Ran(_, Failed(why)) => Some(Said(why))
  }

  function AbortsDuring(gate: Gate): nat {
    if gate.Ran? then gate.aborts else 0
  }

  /** The status that ends an instance. */
  function Ends(last: State, reason: Reason): Effect {
    EmitStatus(last.InstanceStateOf(), Some(reason))
  }

  /** The commands in order, the first of them already invoked, each with one retry; then the goal. */
  function Commands(commands: seq<PluginCommand>, goal: State, reason: Reason, world: World, k: nat): Story
    requires commands != []
    decreases |commands|
  {
    var again := [Invoke(commands[0], Runtime)];
    if Failure(world.invocation(k)).None? then NextCommand(commands, goal, reason, world, k + 1)
    else if Failure(world.invocation(k + 1)).None? then Then(again, NextCommand(commands, goal, reason, world, k + 2))
    else
      var why := RecoveryFailedTwice(commands[0], Failure(world.invocation(k + 1)).value);
      Story(again + [MarkTainted(why), RemoveJournal, Ends(State.Error, why)], State.Error)
  }

  function NextCommand(commands: seq<PluginCommand>, goal: State, reason: Reason, world: World, k: nat): Story
    requires commands != []
    decreases |commands|, 0
  {
    if |commands| == 1 then Story([RemoveJournal, Ends(goal, reason)], goal)
    else Then([Invoke(commands[1], Runtime)], Commands(commands[1..], goal, reason, world, k))
  }

  function Recover(commands: seq<PluginCommand>, goal: State, reason: Reason, world: World, k: nat): Story
    requires commands != []
  {
    Then([EmitStatus(InstanceState.Recovering, Some(reason)), Invoke(commands[0], Runtime)],
         Commands(commands, goal, reason, world, k))
  }

  /** What a stop of an injected fault leads to. */
  function Stopped(cause: StopCause, world: World, k: nat): Story {
    var orderly, forced := [PluginCommand.Cleanup], [PluginCommand.Abort, PluginCommand.Cleanup];
    match cause
    case DurationElapsed => Recover(orderly, State.Done, StoppedBy(cause), world, k)
    case OperatorAbort | MasterLost => Recover(forced, State.Aborted, StoppedBy(cause), world, k)
    case Deadman => Recover(forced, State.Error, StoppedBy(cause), world, k)
  }

  function InjectReason(why: Detail): Reason {
    match why
    case Exit(disposition) => InjectExit(disposition)
    case Said(text) => InjectInvocation(text)
  }

  function PreflightReason(which: Phase, why: Detail): Reason {
    match why
    case Exit(disposition) => PreflightExit(which, disposition)
    case Said(text) => PreflightInvocation(text)
  }

  /** After the inject was invoked: the host may carry the fault, unless the plugin says otherwise. */
  function Injected(world: World, k: nat): Story {
    var forced := [PluginCommand.Abort, PluginCommand.Cleanup];
    match world.invocation(k)
    case Rejected(why) => Story([RemoveJournal, Ends(State.Aborted, InjectRefused(why))], State.Aborted)
    case Ran(_, Exited(InjectFailed)) => Story([RemoveJournal, Ends(State.Aborted, InjectUnaffected)], State.Aborted)
    case Ran(aborts, Exited(Success)) =>
      if aborts > 0 then Stopped(OperatorAbort, world, k + 1)
      else Then([EmitStatus(InstanceState.Active, None)], Stopped(world.stop, world, k + 1))
    case gate =>
      Recover(forced, State.Error, InjectReason(Failure(gate).value), world, k + 1)
  }

  /** After a preflight was invoked: go on, or end ABORTED before anything was done to the host. */
  function Checked(which: Phase, gate: Gate, goOn: Story): Story {
    var failure := Failure(gate);
    if failure.Some? then
      Story([Ends(State.Aborted, PreflightReason(which, failure.value))], State.Aborted)
    else if AbortsDuring(gate) > 0 then
      Story([Ends(State.Aborted, NeverInjected(OperatorAbort))], State.Aborted)
    else goOn
  }

  /** The journal entry is written before the inject, and no inject without it. */
  function Journaling(world: World): Story {
    Then([WriteJournal],
         if world.writeIo then
           Then([EmitStatus(InstanceState.Injecting, None), Invoke(PluginCommand.Inject, Runtime)], Injected(world, 2))
         else Story([Ends(State.Aborted, JournalRefusal("journal write failed"))], State.Aborted))
  }

  /** The script of a live instance, once its setup checks are through. */
  function Script(passed: bool, world: World): Story {
    if !passed then Story([Ends(State.Aborted, Plain("setup failed"))], State.Aborted)
    else
      Then([EmitStatus(InstanceState.Preflight, None), Invoke(PluginCommand.Preflight, Install)],
           Checked(Install, world.invocation(0),
                   Then([Invoke(PluginCommand.Preflight, Runtime)],
                        Checked(Runtime, world.invocation(1), Journaling(world)))))
  }

  /** The script of a journaled instance after a restart. */
  function ReplayScript(inTime: bool, world: World): Story {
    Recover([PluginCommand.Abort, PluginCommand.Cleanup], if inTime then State.Aborted else State.Error,
            RecoveredAfterRestart, world, 0)
  }

  // ----- What the machine makes of the same answers -----

  /** The events that the state will step on when everything it asked for is answered by the world. */
  function Coming(state: State, world: World, k: nat): seq<Event> {
    match state
    case Active => [StopRequested(world.stop)]
    case WritingJournal(_) => [if world.writeIo then JournalWritten else JournalWriteFailed("journal write failed")]
    case PreflightInstall(_) | PreflightRuntime(_) | Injecting(_) | Recovering(_) =>
      Aborts(AbortsDuring(world.invocation(k))) + [GateAnswer(Owed(state).value.command, world.invocation(k))]
    case _ => []
  }

  function Invokes(state: State): nat {
    if Owed(state).Some? && Owed(state).value.Invoke? then 1 else 0
  }

  /** A drained abort is recorded, if the state can record it, and changes nothing else. */
  function Recorded(state: State): State {
    Step(state, StopRequested(OperatorAbort)).0
  }

  lemma {:induction false} RunAborts(state: State, aborts: nat, answer: Event)
    requires Owed(state).Some?
    ensures Run(state, Aborts(aborts) + [answer]) == Step(if aborts > 0 then Recorded(state) else state, answer)
    decreases aborts
  {
    var (next, effects) := Step(state, StopRequested(OperatorAbort));
    assert effects == [] && Owed(next).Some? && Recorded(next) == next;
    var events := Aborts(aborts) + [answer];
    if aborts == 0 {
      assert events == [answer] && events[1..] == [];
      assert Step(state, answer).1 + [] == Step(state, answer).1;
    } else {
      assert events[0] == StopRequested(OperatorAbort) && events[1..] == Aborts(aborts - 1) + [answer];
      RunAborts(next, aborts - 1, answer);
      assert effects + Run(next, events[1..]).1 == Run(next, events[1..]).1;
    }
  }

  /** An answer moves its state on, recorded stop or not. */
  lemma AnswerMovesOn(state: State, gate: Gate)
    requires Invokes(state) == 1
    ensures Step(state, GateAnswer(Owed(state).value.command, gate)).1 != []
    ensures Owed(Recorded(state)) == Owed(state) && Measure(Recorded(state)) == Measure(state)
  {
  }

  lemma ComingMoves(state: State, world: World, k: nat)
    requires Coming(state, world, k) != []
    ensures Measure(Run(state, Coming(state, world, k)).0) < Measure(state)
  {
    if Invokes(state) == 1 {
      var gate := world.invocation(k);
      var from, answer := if AbortsDuring(gate) > 0 then Recorded(state) else state,
                          GateAnswer(Owed(state).value.command, gate);
      AnswerMovesOn(state, gate);
      AnswerMovesOn(from, gate);
      StepSpendsMeasure(from, answer);
      RunAborts(state, AbortsDuring(gate), answer);
      assert Coming(state, world, k) == Aborts(AbortsDuring(gate)) + [answer];
      hide Step, Run, Measure, Recorded, Coming;
    } else {
      assert Coming(state, world, k)[1..] == [];
    }
  }

  /** What happens from a state on, when everything it has decided so far is done. */
  function Dictated(state: State, world: World, k: nat): Story
    decreases Measure(state)
  {
    if Coming(state, world, k) == [] then Story([], state)
    else
      ComingMoves(state, world, k);
      var (next, effects) := Run(state, Coming(state, world, k));
      Then(effects, Dictated(next, world, k + Invokes(state)))
  }

  /** What happens from a task on. */
  function Rest(t: Task, world: World, k: nat): Story {
    if t.todo == [] && t.queue != [] then
      var (next, effects) := Run(t.state, t.queue);
      Then(effects, Dictated(next, world, k))
    else Then(t.todo, Dictated(t.state, world, k))
  }

  // ----- Every micro-step tells a piece of it -----

  lemma ThenThen(a: seq<Effect>, b: seq<Effect>, story: Story)
    ensures Then(a, Then(b, story)) == Then(a + b, story) && Then([], story) == story
  {
    assert a + (b + story.effects) == (a + b) + story.effects;
  }

  lemma {:induction false} OnlyAbortsAre(queue: seq<Event>)
    requires OnlyAborts(queue)
    ensures queue == Aborts(|queue|)
  {
    if queue != [] {
      OnlyAbortsAre(queue[1..]);
      assert queue == [queue[0]] + queue[1..];
    }
  }

  /** The drained aborts of a task are those in its queue. */
  predicate InStep(t: Task, d: nat) {
    !t.settingUp && d == if t.running then |t.queue| else 0
  }

  lemma TakeTells(c: Cell, world: World, k: nat)
    requires CellInv(c) && Enabled(c, Take)
    ensures Rest(c.task, world, k) == Rest(After(c, Take).task, world, k)
  {
    var t, u := c.task, After(c, Take).task;
    var (next, effects) := Step(t.state, t.queue[0]);
    assert Run(t.state, t.queue).1 == effects + Run(next, u.queue).1;
    if u.queue != [] {
      assert t.queue[0] == t.queue[..|t.queue| - 1][0];
      assert effects == [];
      assert [] + Run(next, u.queue).1 == Run(next, u.queue).1;
    } else {
      assert effects + [] == effects;
    }
  }

  lemma WaitTells(c: Cell, world: World, k: nat)
    requires CellInv(c) && Enabled(c, Waited(world.stop))
    ensures Rest(c.task, world, k) == Rest(After(c, Waited(world.stop)).task, world, k)
  {
    var (next, effects) := Step(State.Active, StopRequested(world.stop));
    assert [StopRequested(world.stop)][1..] == [];
    assert effects + [] == effects;
    assert Run(State.Active, Coming(State.Active, world, k)) == (next, effects);
    ThenThen([], effects, Dictated(next, world, k));
  }

  /** The answer to the owed effect completes what was coming. */
  lemma AnswerTells(t: Task, event: Event, world: World, k: nat)
    requires Framed(t) && !t.settingUp && t.todo != [] && (t.todo[0].Invoke? || t.todo[0].WriteJournal?)
    requires t.queue + [event] == Coming(t.state, world, k)
    ensures Rest(t, world, k) == Then([t.todo[0]], Rest(Answered(t, event), world, k + Invokes(t.state)))
  {
    NextIsOwed(t);
  }

  /** The event that a micro-step answers with is the one that was coming. */
  lemma AnswerIsComing(c: Cell, m: Micro, world: World, k: nat, d: nat) returns (event: Event)
    requires CellInv(c) && Enabled(c, m) && Given(m, world, k, d) && InStep(c.task, d)
    requires m.PersistEntry? || m.Refuse? || m.Unverified? || m.Reap?
    ensures c.task.todo != [] && (c.task.todo[0].Invoke? || c.task.todo[0].WriteJournal?)
    ensures c.task.queue + [event] == Coming(c.task.state, world, k) && Asks(m) == Invokes(c.task.state)
    ensures After(c, m).task == Answered(c.task, event) && Completed(c, m) == [c.task.todo[0]]
  {
    var t := c.task;
    NextIsOwed(t);
    OnlyAbortsAre(t.queue);
    hide CellInv, Aborts, OnlyAborts;
    match m {
      case PersistEntry(ok) => event := if ok then JournalWritten else JournalWriteFailed("journal write failed");
      case Refuse(why) => event := InvokeRejected(t.todo[0].command, why);
      case Unverified(why) => event := InvocationFailed(t.todo[0].command, why);
      case Reap(outcome) => event := InvocationEvent(t.todo[0].command, outcome);
    }
    assert t.queue == Aborts(|t.queue|) && t.queue + [event] == Aborts(|t.queue|) + [event];
  }

  lemma MicroAnswers(c: Cell, m: Micro, world: World, k: nat, d: nat)
    requires CellInv(c) && Enabled(c, m) && Given(m, world, k, d) && InStep(c.task, d)
    requires m.PersistEntry? || m.Refuse? || m.Unverified? || m.Reap?
    ensures Rest(c.task, world, k) == Then(Completed(c, m), Rest(After(c, m).task, world, k + Asks(m)))
  {
    hide Rest, Then, After, Coming, Enabled, Given, Invokes, Framed;
    var event := AnswerIsComing(c, m, world, k, d);
    AnswerTells(c.task, event, world, k);
  }

  lemma OthersTell(c: Cell, m: Micro, world: World, k: nat)
    requires CellInv(c) && Enabled(c, m) && !c.task.settingUp
    requires m.Emit? || m.DropEntry? || m.Quarantine? || m.Spawn? || m.OperatorStop?
    ensures Rest(c.task, world, k) == Then(Completed(c, m), Rest(After(c, m).task, world, k))
  {
    var t := c.task;
    if m.Spawn? || m.OperatorStop? {
      ThenThen([], t.todo, Dictated(t.state, world, k));
    } else {
      assert t.todo == [t.todo[0]] + t.todo[1..];
      ThenThen([t.todo[0]], t.todo[1..], Dictated(t.state, world, k));
    }
  }

  /** A step of the machine tells nothing yet. */
  lemma StepTells(c: Cell, m: Micro, world: World, k: nat)
    requires CellInv(c) && Enabled(c, m) && (m.Take? || m == Waited(world.stop))
    ensures Rest(c.task, world, k) == Then(Completed(c, m), Rest(After(c, m).task, world, k + Asks(m)))
  {
    hide Rest, CellInv, After, Enabled, Dictated, Wedged, Framed, Step;
    if m.Take? {
      TakeTells(c, world, k);
    } else {
      WaitTells(c, world, k);
    }
    ThenThen([], [], Rest(After(c, m).task, world, k));
  }

  lemma NotWedgedNow(c: Cell, m: Micro, d: nat)
    requires CellInv(c) && Enabled(c, m) && InStep(c.task, d)
    ensures !m.Fallback? && !m.SetupPassed? && !m.SetupRefused?
  {
    FramedIsNotWedged(c.task);
  }

  lemma MicroTells(c: Cell, m: Micro, world: World, k: nat, d: nat)
    requires CellInv(c) && Enabled(c, m) && Given(m, world, k, d) && InStep(c.task, d)
    ensures Rest(c.task, world, k) == Then(Completed(c, m), Rest(After(c, m).task, world, k + Asks(m)))
  {
    hide Rest, CellInv, After, Enabled, Then, Completed;
    NotWedgedNow(c, m, d);
    match m {
      case Take | Waited(_) => StepTells(c, m, world, k);
      case PersistEntry(_) | Refuse(_) | Unverified(_) | Reap(_) => MicroAnswers(c, m, world, k, d);
      case Emit | DropEntry(_) | Quarantine(_) | Spawn | OperatorStop => OthersTell(c, m, world, k);
    }
  }

  lemma MicroInStep(c: Cell, m: Micro, d: nat)
    requires CellInv(c) && Enabled(c, m) && InStep(c.task, d)
    ensures InStep(After(c, m).task, Drains(m, d))
  {
    FramedIsNotWedged(c.task);
  }

  /** A whole run performs what its world dictates, and comes to the end its world dictates. */
  lemma {:induction false} RunIsDictated(c: Cell, ms: seq<Micro>, world: World, k: nat, d: nat)
    requires CellInv(c) && Legal(c, ms) && GivenOn(ms, world, k, d) && InStep(c.task, d)
    requires Finished(RunCell(c, ms).task)
    ensures Story(Trace(c, ms), RunCell(c, ms).task.state) == Rest(c.task, world, k)
    decreases |ms|
  {
    hide CellInv, Enabled, After, Given, Rest, Drains, InStep;
    if ms == [] {
      FinishedTells(c.task, world, k);
    } else {
      var m, e, rest := ms[0], After(c, ms[0]), ms[1..];
      MicroKeeps(c, m);
      MicroTells(c, m, world, k, d);
      MicroInStep(c, m, d);
      RunIsDictated(e, rest, world, k + Asks(m), Drains(m, d));
    }
  }

  lemma FinishedTells(t: Task, world: World, k: nat)
    requires Finished(t)
    ensures Rest(t, world, k) == Story([], t.state)
  {
  }

  // ----- What is dictated is the script -----

  /** The state after the command it asked for was answered, with its effects. */
  function Answer(state: State, world: World, k: nat): Transition
    requires Invokes(state) == 1
  {
    var gate := world.invocation(k);
    Step(if AbortsDuring(gate) > 0 then Recorded(state) else state, GateAnswer(Owed(state).value.command, gate))
  }

  lemma AnswerComes(state: State, world: World, k: nat)
    requires Invokes(state) == 1
    ensures Dictated(state, world, k) ==
            Then(Answer(state, world, k).1, Dictated(Answer(state, world, k).0, world, k + 1))
  {
    var gate := world.invocation(k);
    RunAborts(state, AbortsDuring(gate), GateAnswer(Owed(state).value.command, gate));
  }

  lemma EndTells(state: State, world: World, k: nat)
    requires state.IsTerminal()
    ensures Dictated(state, world, k) == Story([], state)
  {
  }

  /** What one answer does to a recovery. */
  lemma RecoveryAnswer(rec: Recovery, world: World, k: nat)
    ensures Answer(State.Recovering(rec), world, k) ==
            if Failure(world.invocation(k)).None? then
              if rec.remaining == [] then
                (rec.outcome.Terminal(), [RemoveJournal, Ends(rec.outcome.Terminal(), rec.reason)])
              else
                var (first, others) := (rec.remaining[0], rec.remaining[1..]);
                (State.Recovering(rec.(current := first, remaining := others, retried := false)),
                 [Invoke(first, Runtime)])
            else RecoveryFailure(rec, Failure(world.invocation(k)).value)
  {
    assert Recorded(State.Recovering(rec)) == State.Recovering(rec);
  }

  lemma NextTells(rec: Recovery, world: World, k: nat)
    requires Failure(world.invocation(k)).None?
    ensures Dictated(State.Recovering(rec), world, k) ==
            NextCommand([rec.current] + rec.remaining, rec.outcome.Terminal(), rec.reason, world, k + 1)
    decreases |rec.remaining|, 0
  {
    hide Dictated, Answer, Failure, Commands;
    AnswerComes(State.Recovering(rec), world, k);
    RecoveryAnswer(rec, world, k);
    var commands := [rec.current] + rec.remaining;
    var next := Answer(State.Recovering(rec), world, k).0;
    if rec.remaining == [] {
      EndTells(next, world, k + 1);
      ThenThen(Answer(State.Recovering(rec), world, k).1, [], Story([], next));
    } else {
      assert commands[1..] == [rec.remaining[0]] + rec.remaining[1..];
      RecoveryTells(next.rec, world, k + 1);
    }
  }

  lemma RecoveryTells(rec: Recovery, world: World, k: nat)
    requires !rec.retried
    ensures Dictated(State.Recovering(rec), world, k) ==
            Commands([rec.current] + rec.remaining, rec.outcome.Terminal(), rec.reason, world, k)
    decreases |rec.remaining|, 1
  {
    hide Dictated, Answer, Failure, NextCommand;
    var again := rec.(retried := true);
    if Failure(world.invocation(k)).None? {
      NextTells(rec, world, k);
    } else {
      AnswerComes(State.Recovering(rec), world, k);
      RecoveryAnswer(rec, world, k);
      if Failure(world.invocation(k + 1)).None? {
        NextTells(again, world, k + 1);
      } else {
        AnswerComes(State.Recovering(again), world, k + 1);
        RecoveryAnswer(again, world, k + 1);
        EndTells(State.Error, world, k + 2);
      }
    }
  }

  lemma OneEvent(state: State, event: Event)
    ensures Run(state, [event]) == Step(state, event)
  {
    assert [event][1..] == [] && Step(state, event).1 + [] == Step(state, event).1;
  }

  lemma OneComes(state: State, event: Event, world: World, k: nat)
    requires Coming(state, world, k) == [event]
    ensures Dictated(state, world, k) ==
            Then(Step(state, event).1, Dictated(Step(state, event).0, world, k + Invokes(state)))
  {
    OneEvent(state, event);
    hide Step, Coming, Run;
  }

  lemma RestOfOne(t: Task, event: Event, world: World, k: nat)
    requires t.todo == [] && t.queue == [event]
    ensures Rest(t, world, k) == Then(Step(t.state, event).1, Dictated(Step(t.state, event).0, world, k))
  {
    OneEvent(t.state, event);
    hide Step, Run, Dictated;
  }

  lemma ActiveTells(world: World, k: nat)
    ensures Dictated(State.Active, world, k) == Stopped(world.stop, world, k)
  {
    RecoverTells(world.stop, StoppedBy(world.stop), world, k);
    OneComes(State.Active, StopRequested(world.stop), world, k);
    assert Step(State.Active, StopRequested(world.stop)) == StartRecovery(world.stop, StoppedBy(world.stop));
    hide Dictated, Step, Recover, StartRecovery;
  }

  /** What the answer to the inject does. */
  lemma InjectAnswer(world: World, k: nat)
    ensures var (next, effects) := Answer(State.Injecting(None), world, k);
            match world.invocation(k)
            case Rejected(why) => (next, effects) == AbortedUnjournaled(InjectRefused(why))
            case Ran(_, Exited(InjectFailed)) => (next, effects) == AbortedUnjournaled(InjectUnaffected)
            case Ran(aborts, Exited(Success)) =>
              if aborts > 0 then (next, effects) == StartRecovery(OperatorAbort, StoppedBy(OperatorAbort))
              else (next, effects) == (State.Active, [EmitStatus(InstanceState.Active, None)])
            case gate =>
              (next, effects) == StartRecovery(Deadman, InjectReason(Failure(gate).value))
  {
  }

  lemma RecoverTells(cause: StopCause, reason: Reason, world: World, k: nat)
    ensures var (next, effects) := StartRecovery(cause, reason);
            Then(effects, Dictated(next, world, k)) ==
            Recover(if cause.DurationElapsed? then [PluginCommand.Cleanup]
                    else [PluginCommand.Abort, PluginCommand.Cleanup],
                    match cause {
                      case DurationElapsed => State.Done
                      case OperatorAbort | MasterLost => State.Aborted
                      case Deadman => State.Error
                    }, reason, world, k)
  {
    hide Dictated, Commands;
    RecoveryTells(StartRecovery(cause, reason).0.rec, world, k);
    assert [PluginCommand.Abort] + [PluginCommand.Cleanup] == [PluginCommand.Abort, PluginCommand.Cleanup];
    assert [PluginCommand.Cleanup] + [] == [PluginCommand.Cleanup];
  }

  lemma InjectingTells(world: World, k: nat)
    ensures Dictated(State.Injecting(None), world, k) == Injected(world, k)
  {
    hide Dictated, Answer, Recover, StartRecovery;
    AnswerComes(State.Injecting(None), world, k);
    InjectAnswer(world, k);
    EndTells(State.Aborted, world, k + 1);
    ActiveTells(world, k + 1);
    RecoverTells(OperatorAbort, StoppedBy(OperatorAbort), world, k + 1);
    match world.invocation(k) {
      case Rejected(_) =>
      case Ran(_, Exited(InjectFailed)) =>
      case Ran(_, Exited(Success)) =>
      case gate =>
        RecoverTells(Deadman, InjectReason(Failure(gate).value), world, k + 1);
    }
  }

  lemma JournalingTells(world: World, k: nat)
    ensures Dictated(State.WritingJournal(None), world, k) ==
            if world.writeIo then
              Then([EmitStatus(InstanceState.Injecting, None), Invoke(PluginCommand.Inject, Runtime)],
                   Injected(world, k))
            else Story([Ends(State.Aborted, JournalRefusal("journal write failed"))], State.Aborted)
  {
    WritingComes(world, k);
    hide Injected, Dictated;
    InjectingTells(world, k);
    EndTells(State.Aborted, world, k);
  }

  /** What the journal's answer does. */
  lemma WritingComes(world: World, k: nat)
    ensures Dictated(State.WritingJournal(None), world, k) ==
            if world.writeIo then
              Then([EmitStatus(InstanceState.Injecting, None), Invoke(PluginCommand.Inject, Runtime)],
                   Dictated(State.Injecting(None), world, k))
            else Then([Ends(State.Aborted, JournalRefusal("journal write failed"))], Dictated(State.Aborted, world, k))
  {
    hide Dictated;
    OneComes(State.WritingJournal(None), Coming(State.WritingJournal(None), world, k)[0], world, k);
  }

  /** What the answer to a preflight does. */
  lemma PreflightAnswer(which: Phase, world: World, k: nat)
    ensures var (next, effects) := Answer(InPreflight(which, None), world, k);
            var gate := world.invocation(k);
            var failure := Failure(gate);
            if failure.Some? then (next, effects) == AbortedWith(PreflightReason(which, failure.value))
            else if AbortsDuring(gate) > 0 then (next, effects) == AbortedWith(NeverInjected(OperatorAbort))
            else (next, effects) ==
                 match which {
                   case Install => (State.PreflightRuntime(None), [Invoke(PluginCommand.Preflight, Runtime)])
                   case Runtime => (State.WritingJournal(None), [WriteJournal])
                 }
  {
  }

  lemma OnePreflightTells(which: Phase, world: World, k: nat)
    ensures Dictated(InPreflight(which, None), world, k) ==
            Checked(which, world.invocation(k),
                    match which {
                      case Install => Then([Invoke(PluginCommand.Preflight, Runtime)],
                                           Dictated(State.PreflightRuntime(None), world, k + 1))
                      case Runtime => Then([WriteJournal], Dictated(State.WritingJournal(None), world, k + 1))
                    })
  {
    hide Dictated, Answer, Failure;
    AnswerComes(InPreflight(which, None), world, k);
    PreflightAnswer(which, world, k);
    EndTells(State.Aborted, world, k + 1);
  }

  lemma PreflightTells(world: World)
    ensures Dictated(State.PreflightInstall(None), world, 0) ==
            Checked(Install, world.invocation(0),
                    Then([Invoke(PluginCommand.Preflight, Runtime)],
                         Checked(Runtime, world.invocation(1), Journaling(world))))
  {
    hide Dictated, Checked;
    OnePreflightTells(Install, world, 0);
    OnePreflightTells(Runtime, world, 1);
    JournalingTells(world, 2);
  }

  /** A live instance follows its script: from the end of its setup checks on, the whole run of the loop
      performs exactly the effects that the script has, in its order, and ends in the script's state. */
  lemma LiveRunIsScript(c: Cell, ms: seq<Micro>, passed: bool, world: World)
    requires CellInv(c) && Legal(c, ms) && GivenFrom(ms, world, 0) && Finished(RunCell(c, ms).task)
    requires !c.task.settingUp && c.task.state.Pending? && c.task.todo == []
    requires c.task.queue == [if passed then SetupOk else SetupFailed("setup failed")]
    ensures Story(Trace(c, ms), RunCell(c, ms).task.state) == Script(passed, world)
  {
    assert !c.task.running;
    hide Rest, Dictated, Trace, RunCell, Legal, CellInv;
    RunIsDictated(c, ms, world, 0, 0);
    RestOfOne(c.task, c.task.queue[0], world, 0);
    PendingTells(passed, world);
  }

  /** What the setup's result leads to. */
  lemma PendingTells(passed: bool, world: World)
    ensures var (next, effects) := Step(State.Pending, if passed then SetupOk else SetupFailed("setup failed"));
            Then(effects, Dictated(next, world, 0)) == Script(passed, world)
  {
    hide Dictated, Checked, Journaling;
    PreflightTells(world);
    EndTells(State.Aborted, world, 0);
  }

  /** And so does a replay. */
  lemma ReplayIsScript(c: Cell, ms: seq<Micro>, world: World, inTime: bool)
    requires CellInv(c) && Legal(c, ms) && GivenFrom(ms, world, 0) && Finished(RunCell(c, ms).task)
    requires c.task == ReplayTask(if inTime then Outcome.Aborted else Outcome.Error, c.task.own)
    ensures Story(Trace(c, ms), RunCell(c, ms).task.state) == ReplayScript(inTime, world)
  {
    RunIsDictated(c, ms, world, 0, 0);
    RecoveryTells(c.task.state.rec, world, 0);
    assert [PluginCommand.Abort] + [PluginCommand.Cleanup] == [PluginCommand.Abort, PluginCommand.Cleanup];
  }

  // ----- Where scripts end -----

  /** So many commands get through from the k-th invocation on, each with one retry. */
  predicate GetThrough(commands: nat, world: World, k: nat) {
    || commands == 0
    || (Failure(world.invocation(k)).None? && GetThrough(commands - 1, world, k + 1))
    || (Failure(world.invocation(k)).Some? && Failure(world.invocation(k + 1)).None?
        && GetThrough(commands - 1, world, k + 2))
  }

  lemma {:induction false} CommandsEnd(commands: seq<PluginCommand>, goal: State, reason: Reason, world: World, k: nat)
    requires commands != []
    ensures Commands(commands, goal, reason, world, k).last ==
            if GetThrough(|commands|, world, k) then goal else State.Error
    decreases |commands|
  {
    if |commands| > 1 {
      CommandsEnd(commands[1..], goal, reason, world, k + 1);
      CommandsEnd(commands[1..], goal, reason, world, k + 2);
    }
  }

  /** How a stopped fault ends: the cause decides, if the recovery gets through. */
  lemma StoppedEnd(cause: StopCause, world: World, k: nat)
    ensures Stopped(cause, world, k).last ==
            if !GetThrough(if cause == DurationElapsed then 1 else 2, world, k) then State.Error
            else if cause == DurationElapsed then State.Done
            else if cause == Deadman then State.Error
            else State.Aborted
  {
    CommandsEnd([PluginCommand.Cleanup], State.Done, StoppedBy(cause), world, k);
    CommandsEnd([PluginCommand.Abort, PluginCommand.Cleanup], State.Aborted, StoppedBy(cause), world, k);
    CommandsEnd([PluginCommand.Abort, PluginCommand.Cleanup], State.Error, StoppedBy(cause), world, k);
  }

  /** The two preflights and the inject exit 0, undisturbed. */
  predicate Activates(passed: bool, world: World) {
    && passed && world.writeIo
    && world.invocation(0) == Ran(0, Exited(Success))
    && world.invocation(1) == Ran(0, Exited(Success))
    && world.invocation(2) == Ran(0, Exited(Success))
  }

  lemma ActivatedEnd(passed: bool, world: World)
    requires Activates(passed, world)
    ensures Script(passed, world).last == Stopped(world.stop, world, 3).last
  {
    hide Stopped;
  }

  /** An instance ends DONE exactly when everything before the fault went through undisturbed, the fault
      ran its full time, and the cleanup exited 0 at the first or the second attempt. */
  lemma DoneIff(passed: bool, world: World)
    ensures Script(passed, world).last.Done? <==>
            && Activates(passed, world) && world.stop == DurationElapsed
            && (Failure(world.invocation(3)).None? || Failure(world.invocation(4)).None?)
  {
    hide GetThrough;
    StoppedEnd(world.stop, world, 3);
    StoppedEnd(OperatorAbort, world, 3);
    AmbiguousEnd(world, 3);
    OneGetsThrough(world, 3);
    if Activates(passed, world) {
      ActivatedEnd(passed, world);
    }
    hide Stopped, Recover;
  }

  lemma OneGetsThrough(world: World, k: nat)
    ensures GetThrough(1, world, k) <==> Failure(world.invocation(k)).None? || Failure(world.invocation(k + 1)).None?
  {
  }

  lemma AmbiguousEnd(world: World, k: nat)
    ensures forall reason :: Recover([PluginCommand.Abort, PluginCommand.Cleanup], State.Error, reason, world, k).last
                             == State.Error
  {
    forall reason
      ensures Recover([PluginCommand.Abort, PluginCommand.Cleanup], State.Error, reason, world, k).last == State.Error
    {
      CommandsEnd([PluginCommand.Abort, PluginCommand.Cleanup], State.Error, reason, world, k);
    }
  }

  /** An instance whose fault came to be ACTIVE, by what stopped it. */
  lemma ActivatedEndsAs(passed: bool, world: World)
    requires Activates(passed, world)
    ensures var last := Script(passed, world).last;
            && (last.Done? <==> world.stop.DurationElapsed? && GetThrough(1, world, 3))
            && (last.Aborted? <==> (world.stop.OperatorAbort? || world.stop.MasterLost?) && GetThrough(2, world, 3))
  {
    hide Stopped, GetThrough;
    ActivatedEnd(passed, world);
    StoppedEnd(world.stop, world, 3);
  }

  ghost predicate AllGoesWell(world: World) {
    && world.setupJoins && world.writeIo && world.stop == DurationElapsed
    && forall k: nat :: world.invocation(k) == Ran(0, Exited(Success))
  }

  /** The whole story of a fault that nothing disturbs. */
  lemma UndisturbedScript(world: World)
    requires AllGoesWell(world)
    ensures world.setupJoins
    ensures Script(true, world) ==
            Story([EmitStatus(InstanceState.Preflight, None),
                   Invoke(PluginCommand.Preflight, Install),
                   Invoke(PluginCommand.Preflight, Runtime),
                   WriteJournal,
                   EmitStatus(InstanceState.Injecting, None),
                   Invoke(PluginCommand.Inject, Runtime),
                   EmitStatus(InstanceState.Active, None),
                   EmitStatus(InstanceState.Recovering, Some(StoppedBy(DurationElapsed))),
                   Invoke(PluginCommand.Cleanup, Runtime),
                   RemoveJournal,
                   EmitStatus(InstanceState.Done, Some(StoppedBy(DurationElapsed)))],
                  State.Done)
  {
    assert world.invocation(0) == Ran(0, Exited(Success)) && world.invocation(1) == Ran(0, Exited(Success));
    assert world.invocation(2) == Ran(0, Exited(Success)) && world.invocation(3) == Ran(0, Exited(Success));
  }
}
