/** One fault instance as its shell drives it, cut into micro-steps: every effect is performed on
    its own, a plugin process is started and reaped in two steps, and an operator abort can be
    drained between them. A `Cell` joins the task with the four facts about its host that concern
    it: its journal entry, whether its fault may be on the host, the quarantine, and whether the
    instance was `excused` from the safety promise (its quarantine could not be persisted, an
    operator cleared the quarantine over it, or it was started again over an unmarked fault). */
module Task {
  import opened Lifecycle
  import opened Machine
  import opened MachineRuns

  /** `queue` and `todo` are the shell's event and effect queues; `running` says that the process
      of the leading `Invoke` has been started; `own` is the journal entry of the instance. `pristine` is
      history: when the task was created, the instance's fault was not on the host, or it is a replay. */
  datatype Task = Task(
    settingUp: bool,
    pristine: bool,
    state: State,
    queue: seq<Event>,
    todo: seq<Effect>,
    running: bool,
    own: JournalEntry)

  datatype EntryFile = Readable(entry: JournalEntry) | Unreadable

  datatype Cell = Cell(task: Task, entry: Option<EntryFile>, dirty: bool, tainted: bool, excused: bool)
  {
    predicate Shielded() {
      tainted || excused
    }
  }

  datatype Micro =
    | SetupPassed
    | SetupRefused(why: string)
    | Take                            // pop the event queue and step the machine
    | Waited(cause: StopCause)        // the wait while ACTIVE ended
    | Fallback                        // the shell's wedged branch
    | Emit
    | PersistEntry(ok: bool)
    | DropEntry(ok: bool)
    | Quarantine(ok: bool)
    | Refuse(why: string)             // digest gate said no: nothing was spawned
    | Unverified(why: string)         // the digest task itself failed: nothing was spawned
    | Spawn
    | OperatorStop                    // an abort drained while a process runs
    | Reap(outcome: InvocationOutcome)

  function InvocationEvent(command: PluginCommand, outcome: InvocationOutcome): Event {
    match outcome
    case Exited(disposition) => CommandFinished(command, disposition)
    case TimedOut => InvocationFailed(command, "killed after invocation timeout")
    case Signalled => InvocationFailed(command, "terminated by signal")
    case Failed(why) => InvocationFailed(command, why)
  }

  /** A fresh instance: it has announced itself as PENDING and runs its setup checks. */
  function NewTask(pristine: bool, own: JournalEntry): Task {
    Task(true, pristine, State.Pending, [], [EmitStatus(InstanceState.Pending, None)], false, own)
  }

  /** A journaled instance picked up after a restart. */
  function ReplayTask(outcome: Outcome, own: JournalEntry): Task {
    var (state, effects) := ReplayRecovery(outcome);
    Task(false, true, state, [], effects, false, own)
  }

  // ----- Micro-steps -----

  predicate Resting(t: Task) {
    !t.settingUp && t.todo == [] && t.queue == []
  }

  predicate Finished(t: Task) {
    Resting(t) && t.state.IsTerminal()
  }

  /** The shell has nothing to wait for and is not done. */
  predicate Wedged(t: Task) {
    Resting(t) && !t.state.IsTerminal() && !t.state.Active?
  }

  predicate Enabled(c: Cell, m: Micro) {
    var t := c.task;
    match m
    case SetupPassed => t.settingUp && t.todo == [] && !c.tainted
    case SetupRefused(_) => t.settingUp && t.todo == []
    case Take => !t.settingUp && t.todo == [] && t.queue != []
    case Waited(_) => Resting(t) && t.state.Active?
    case Fallback => Wedged(t)
    case Emit => t.todo != [] && t.todo[0].EmitStatus?
    case PersistEntry(_) => t.todo != [] && t.todo[0].WriteJournal?
    case DropEntry(_) => t.todo != [] && t.todo[0].RemoveJournal?
    case Quarantine(_) => t.todo != [] && t.todo[0].MarkTainted?
    case Refuse(_) | Unverified(_) | Spawn => t.todo != [] && t.todo[0].Invoke? && !t.running
    case OperatorStop => t.running
    case Reap(_) => t.running && t.todo != [] && t.todo[0].Invoke?
  }

  function Advance(t: Task, event: Event): Task {
    var (next, effects) := Step(t.state, event);
    t.(state := next, todo := effects)
  }

  function Performed(t: Task): Task
    requires t.todo != []
  {
    t.(todo := t.todo[1..])
  }

  function Answered(t: Task, event: Event): Task
    requires t.todo != []
  {
    t.(todo := t.todo[1..], queue := t.queue + [event], running := false)
  }

  function AfterTask(c: Cell, m: Micro): Task
    requires Enabled(c, m)
  {
    var t := c.task;
    match m
    case SetupPassed => t.(settingUp := false, queue := [SetupOk])
    case SetupRefused(why) => t.(settingUp := false, queue := [SetupFailed(why)])
    case Take => Advance(t.(queue := t.queue[1..]), t.queue[0])
    case Waited(cause) => Advance(t, StopRequested(cause))
    case Fallback => Advance(t, StopRequested(Deadman))
    case Emit | DropEntry(_) | Quarantine(_) => Performed(t)
    case PersistEntry(ok) => Answered(t, if ok then JournalWritten else JournalWriteFailed("journal write failed"))
    case Refuse(why) => Answered(t, InvokeRejected(t.todo[0].command, why))
    case Unverified(why) => Answered(t, InvocationFailed(t.todo[0].command, why))
    case Spawn => t.(running := true)
    case OperatorStop => t.(queue := [StopRequested(OperatorAbort)] + t.queue)
    case Reap(outcome) => Answered(t, InvocationEvent(t.todo[0].command, outcome))
  }

  /** The host may carry the fault from the moment inject is spawned until a cleanup exits 0, or
      the inject itself exits with the code that asserts that it did nothing. A fault that an earlier
      life left on the host (`!pristine`) is not taken away by that. */
  function DirtyAfter(c: Cell, m: Micro): bool
    requires Enabled(c, m)
  {
    match m
    case Spawn => c.dirty || c.task.todo[0].command.Inject?
    case Reap(outcome) =>
      var command := c.task.todo[0].command;
      c.dirty
      && !(command.Cleanup? && outcome == Exited(Success))
      && !(command.Inject? && outcome == Exited(InjectFailed) && c.task.pristine)
    case _ => c.dirty
  }

  function After(c: Cell, m: Micro): Cell
    requires Enabled(c, m)
  {
    Cell(AfterTask(c, m),
         match m {
           case PersistEntry(ok) => if ok then Some(Readable(c.task.own)) else c.entry
           case DropEntry(ok) => if ok then None else c.entry
           case _ => c.entry
         },
         DirtyAfter(c, m),
         c.tainted || (m.Quarantine? && m.ok),
         c.excused || (m.Quarantine? && !m.ok && !c.tainted))
  }

  // ----- The shell's queue invariant -----

  predicate OnlyAborts(events: seq<Event>) {
    forall k :: 0 <= k < |events| ==> events[k] == StopRequested(OperatorAbort)
  }

  /** The queue holds stops followed by exactly one result, and it answers `owed`. */
  predicate HoldsAnswer(queue: seq<Event>, owed: Effect) {
    queue != [] && OnlyAborts(queue[..|queue| - 1]) && Answers(owed, queue[|queue| - 1])
  }

  /** The owed effect is still to be performed, at most after one status. */
  predicate StillOwes(t: Task, owed: Effect) {
    && (t.todo == [owed] || (|t.todo| == 2 && Says(t.todo[0], t.state) && t.todo[1] == owed))
    && (t.running ==> t.todo == [owed] && owed.Invoke?)
    && OnlyAborts(t.queue)
    && (!t.running ==> t.queue == [])
  }

  /** What is left to do when the machine is in a terminal state. */
  predicate Ending(state: State, todo: seq<Effect>) {
    || todo == []
    || (|todo| == 1 && Says(todo[0], state))
    || (|todo| == 2 && todo[0].RemoveJournal? && Says(todo[1], state))
    || (|todo| == 3 && state.Error? && todo[0].MarkTainted? && todo[1].RemoveJournal? && Says(todo[2], state))
  }

  predicate Says(effect: Effect, state: State) {
    effect.EmitStatus? && effect.state == state.InstanceStateOf()
  }

  /** Queues and machine state fit together. */
  predicate Framed(t: Task) {
    && Wf(t.state)
    && if t.settingUp then
         t.state.Pending? && t.queue == [] && !t.running
         && (t.todo == [] || t.todo == [EmitStatus(InstanceState.Pending, None)])
       else if Owed(t.state).Some? then
         if t.todo == [] then !t.running && HoldsAnswer(t.queue, Owed(t.state).value)
         else StillOwes(t, Owed(t.state).value)
       else
         && !t.running
         && (match t.state
             case Pending => t.todo == [] && |t.queue| == 1 && (t.queue[0].SetupOk? || t.queue[0].SetupFailed?)
             case Active => t.queue == [] && (t.todo == [] || (|t.todo| == 1 && Says(t.todo[0], t.state)))
             case _ => t.queue == [] && Ending(t.state, t.todo))
  }

  /** A framed task is never wedged: the shell's fallback branch cannot be reached. */
  lemma FramedIsNotWedged(t: Task)
    requires Framed(t)
    ensures !Wedged(t)
  {
  }

  // ----- Where the fault can be -----

  function LastEvent(t: Task): Option<Event> {
    if t.todo == [] && t.queue != [] then Some(t.queue[|t.queue| - 1]) else None
  }

  /** An inject result that does not assert an unaffected host. */
  predicate Ambiguous(event: Event) {
    !(event.CommandFinished? && event.disposition.InjectFailed?) && !event.InvokeRejected?
  }

  /** The fault of this instance may be on the host, and the task will deal with it. */
  predicate Carries(t: Task) {
    match t.state
    case Injecting(_) => t.running || (LastEvent(t).Some? && Ambiguous(LastEvent(t).value))
    case Active => true
    case Recovering(rec) =>
      !(rec.remaining == [] && LastEvent(t) == Some(CommandFinished(rec.current, Success)))
    case Error => t.todo != [] && t.todo[0].MarkTainted?
    case _ => false
  }

  /** The instance's own journal entry must be on disk. */
  predicate Journaled(t: Task) {
    || t.state.Injecting? || t.state.Active? || t.state.Recovering?
    || (t.state.WritingJournal? && LastEvent(t) == Some(JournalWritten))
    || (t.state.Error? && t.todo != [] && t.todo[0].MarkTainted?)
  }

  /** The invariant of one instance on its host. */
  predicate CellInv(c: Cell) {
    && Framed(c.task)
    && (Journaled(c.task) ==> c.entry.Some? && (c.entry.value.Readable? ==> c.entry.value.entry == c.task.own))
    && (c.dirty ==> Carries(c.task) || (c.Shielded() && (c.task.pristine ==> c.task.state.Error?)))
    && (!c.task.pristine ==> if c.dirty then c.Shielded() else c.task.state.Recovering? || c.task.state.IsTerminal())
  }

  /** An instance whose fault may be on the host is journaled, or the host is quarantined. */
  lemma CellIsSafe(c: Cell)
    requires CellInv(c)
    ensures c.dirty ==> c.entry.Some? || c.Shielded()
  {
  }

  /** An instance that ended DONE or ABORTED left nothing behind. */
  lemma CleanEndingIsClean(c: Cell)
    requires CellInv(c) && c.task.pristine && (c.task.state.Done? || c.task.state.Aborted?)
    ensures !c.dirty
  {
  }

  // ----- Every micro-step keeps the invariant -----

  lemma TakeStopKeeps(c: Cell)
    requires CellInv(c) && Enabled(c, Take) && |c.task.queue| > 1
    ensures CellInv(After(c, Take))
  {
    var t := c.task;
    var rest := t.queue[1..];
    assert t.queue[0] == t.queue[..|t.queue| - 1][0];
    assert rest[..|rest| - 1] == t.queue[..|t.queue| - 1][1..];
    assert rest[|rest| - 1] == t.queue[|t.queue| - 1];
    assert t.queue[0] == StopRequested(OperatorAbort);
    assert Owed(t.state).Some?;
    assert Step(t.state, t.queue[0]).1 == [];
    assert Owed(Step(t.state, t.queue[0]).0) == Owed(t.state);
  }

  /** The queue held one event only, so the step leaves it empty. */
  lemma TakeBeforeInjectKeeps(c: Cell)
    requires CellInv(c) && Enabled(c, Take) && |c.task.queue| == 1
    requires c.task.state.Pending? || c.task.state.PreflightInstall? || c.task.state.PreflightRuntime?
    ensures CellInv(After(c, Take))
  {
    assert c.task.queue[1..] == [];
  }

  lemma TakeJournalResultKeeps(c: Cell)
    requires CellInv(c) && Enabled(c, Take) && |c.task.queue| == 1 && c.task.state.WritingJournal?
    ensures CellInv(After(c, Take))
  {
    assert c.task.queue[1..] == [];
  }

  lemma TakeInjectResultKeeps(c: Cell)
    requires CellInv(c) && Enabled(c, Take) && |c.task.queue| == 1 && c.task.state.Injecting?
    ensures CellInv(After(c, Take))
  {
    assert c.task.queue[1..] == [];
  }

  lemma TakeRecoveryResultKeeps(c: Cell)
    requires CellInv(c) && Enabled(c, Take) && |c.task.queue| == 1 && c.task.state.Recovering?
    ensures CellInv(After(c, Take))
  {
    assert c.task.queue[1..] == [];
    StepKeepsWf(c.task.state, c.task.queue[0]);
  }

  lemma TakeKeeps(c: Cell)
    requires CellInv(c) && Enabled(c, Take)
    ensures CellInv(After(c, Take))
  {
    if |c.task.queue| > 1 {
      TakeStopKeeps(c);
    } else {
      match c.task.state {
        case Pending | PreflightInstall(_) | PreflightRuntime(_) => TakeBeforeInjectKeeps(c);
        case WritingJournal(_) => TakeJournalResultKeeps(c);
        case Injecting(_) => TakeInjectResultKeeps(c);
        case Recovering(_) => TakeRecoveryResultKeeps(c);
        case _ =>
      }
    }
  }

  lemma WaitKeeps(c: Cell, cause: StopCause)
    requires CellInv(c) && Enabled(c, Waited(cause))
    ensures CellInv(After(c, Waited(cause)))
  {
    StepKeepsWf(c.task.state, StopRequested(cause));
  }

  /** Only the owed effect can be the next one that is answered. */
  lemma NextIsOwed(t: Task)
    requires Framed(t) && t.todo != [] && (t.todo[0].Invoke? || t.todo[0].WriteJournal?)
    ensures Owed(t.state) == Some(t.todo[0]) && t.todo == [t.todo[0]] && OnlyAborts(t.queue)
  {
  }

  lemma AnswerFrames(t: Task, event: Event)
    requires Framed(t) && t.todo != [] && (t.todo[0].Invoke? || t.todo[0].WriteJournal?)
    requires Answers(t.todo[0], event)
    ensures Framed(Answered(t, event)) && LastEvent(Answered(t, event)) == Some(event)
  {
    NextIsOwed(t);
    var queue := t.queue + [event];
    assert queue[..|queue| - 1] == t.queue;
  }

  lemma PersistKeeps(c: Cell, ok: bool)
    requires CellInv(c) && Enabled(c, PersistEntry(ok))
    ensures CellInv(After(c, PersistEntry(ok)))
  {
    NextIsOwed(c.task);
    AnswerFrames(c.task, if ok then JournalWritten else JournalWriteFailed("journal write failed"));
    hide Framed;
  }

  lemma NotSpawnedKeeps(c: Cell, m: Micro)
    requires CellInv(c) && Enabled(c, m) && (m.Refuse? || m.Unverified?)
    ensures CellInv(After(c, m))
  {
    NextIsOwed(c.task);
    var command := c.task.todo[0].command;
    AnswerFrames(c.task, if m.Refuse? then InvokeRejected(command, m.why) else InvocationFailed(command, m.why));
  }

  lemma ReapKeeps(c: Cell, outcome: InvocationOutcome)
    requires CellInv(c) && Enabled(c, Reap(outcome))
    ensures CellInv(After(c, Reap(outcome)))
  {
    NextIsOwed(c.task);
    AnswerFrames(c.task, InvocationEvent(c.task.todo[0].command, outcome));
  }

  lemma MicroKeeps(c: Cell, m: Micro)
    requires CellInv(c) && Enabled(c, m)
    ensures CellInv(After(c, m))
  {
    match m {
      case Take => TakeKeeps(c);
      case Waited(cause) => WaitKeeps(c, cause);
      case Fallback => FramedIsNotWedged(c.task);
      case PersistEntry(ok) => PersistKeeps(c, ok);
      case Refuse(_) | Unverified(_) => NotSpawnedKeeps(c, m);
      case Reap(outcome) => ReapKeeps(c, outcome);
      case _ =>
    }
  }
}
