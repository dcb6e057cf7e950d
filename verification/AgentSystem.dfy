/** A whole agent over its lives: any number of instances interleaved micro-step by micro-step, with
    crashes between any two of them, restarts and journal replay. */
module AgentSystem {
  import opened Lifecycle
  import opened Machine
  import opened MachineRuns
  import opened Task
  import opened TaskRuns
  import opened Charset

  /** `Replaying` is the time before the first session, with the journal entries still to handle. An agent
      that could not list its journal is up without a replay, over whatever the journal holds. */
  datatype Life = Down | Replaying(pending: set<InstanceId>) | Up(replayed: bool)

  /** `tasks`, `life` and `injected` are lost in a crash; `journal` and `tainted` are on disk; the rest is
      history: whose fault may be on the host, who was excused from the promise, which ids were ever
      accepted, with which entries, and which ids were accepted twice (in different lives), every status
      ever sent, and the last one that each instance sent of itself. `sent` is what the network may deliver,
      late, repeatedly, in any order, or never. */
  datatype Agent = Agent(
    life: Life,
    tasks: map<InstanceId, Task>,
    journal: map<InstanceId, EntryFile>,
    tainted: bool,
    injected: set<InstanceId>,
    dirty: set<InstanceId>,
    excused: set<InstanceId>,
    accepted: set<InstanceId>,
    owns: set<JournalEntry>,
    readmitted: set<InstanceId>,
    sent: set<(InstanceId, InstanceState)>,
    said: map<InstanceId, InstanceState>)

  datatype Action =
    | RunFault(id: InstanceId, own: JournalEntry)
    | Do(id: InstanceId, micro: Micro)
    | Report
    | Corrupt(id: InstanceId)
    | ClearTaint(cleared: bool)
    | Crash
    | Restart(listed: bool)
    | ReplayNext(id: InstanceId, nowMs: nat, marked: bool)
    | OpenSessions

  function Fresh(): Agent {
    Agent(Up(true), map[], map[], false, {}, {}, {}, {}, {}, {}, {}, map[])
  }

  predicate Shielded(a: Agent, id: InstanceId) {
    a.tainted || id in a.excused
  }

  function EntryOf(a: Agent, id: InstanceId): Option<EntryFile> {
    if id in a.journal then Some(a.journal[id]) else None
  }

  function CellOf(a: Agent, id: InstanceId): Cell
    requires id in a.tasks
  {
    Cell(a.tasks[id], EntryOf(a, id), id in a.dirty, a.tainted, id in a.excused)
  }

  function WithMember<T>(s: set<T>, x: T, member: bool): set<T> {
    if member then s + {x} else s - {x}
  }

  function PutCell(a: Agent, id: InstanceId, c: Cell): Agent {
    a.(tasks := a.tasks[id := c.task],
       journal := if c.entry.Some? then a.journal[id := c.entry.value] else a.journal - {id},
       tainted := c.tainted,
       dirty := WithMember(a.dirty, id, c.dirty),
       excused := WithMember(a.excused, id, c.excused))
  }

  predicate AllFinished(a: Agent) {
    forall id :: id in a.tasks ==> Finished(a.tasks[id])
  }

  predicate CanAct(a: Agent, act: Action) {
    match act
    case RunFault(id, own) => a.life.Up? && own.instanceId == id
    case Report => a.life.Up?
    case Do(id, m) => id in a.tasks && Enabled(CellOf(a, id), m)
    case Corrupt(id) => id in a.journal
    case ClearTaint(_) => a.life.Up?
    case Crash => true
    case Restart(_) => a.life.Down?
    case ReplayNext(id, _, _) => a.life.Replaying? && id in a.life.pending && id in a.journal && AllFinished(a)
    case OpenSessions => a.life.Replaying? && a.life.pending == {} && AllFinished(a)
  }

  predicate Drops(a: Agent, id: InstanceId) {
    !ValidInstanceId(id) || id in a.tasks
  }

  /** An unusable id and a duplicate are dropped. An instance whose earlier fault may still be on the host,
      with no quarantine to say so, may lose its journal entry to the new task: it is excused from here. */
  function AfterRunFault(a: Agent, id: InstanceId, own: JournalEntry): Agent {
    if Drops(a, id) then a
    else
      a.(tasks := a.tasks[id := NewTask(id !in a.dirty, own)],
         excused := if id in a.dirty && !a.tainted then a.excused + {id} else a.excused,
         accepted := a.accepted + {id},
         owns := a.owns + {own},
         readmitted := if id in a.accepted then a.readmitted + {id} else a.readmitted)
  }

  function AfterDo(a: Agent, id: InstanceId, m: Micro): Agent
    requires id in a.tasks && Enabled(CellOf(a, id), m)
  {
    var c := CellOf(a, id);
    PutCell(a, id, After(c, m)).(
      sent := if m.Emit? then a.sent + {(id, c.task.todo[0].state)} else a.sent,
      said := if m.Emit? then a.said[id := c.task.todo[0].state] else a.said,
      injected := if m.Spawn? && c.task.todo[0].command.Inject? then a.injected + {id} else a.injected)
  }

  /** What the reconciliation report lists: the live instances with the states of their views. */
  function Reported(a: Agent): set<(InstanceId, InstanceState)> {
    set id | id in a.tasks && !a.tasks[id].state.IsTerminal() :: (id, a.tasks[id].state.InstanceStateOf())
  }

  /** Before the dead-man deadline recovery ends ABORTED; past it the promise was already broken. */
  function ReplayTarget(inTime: bool): Outcome {
    if inTime then Outcome.Aborted else Outcome.Error
  }

  function AfterReplayNext(a: Agent, id: InstanceId, nowMs: nat, marked: bool): Agent
    requires a.life.Replaying? && id in a.journal
  {
    var b := a.(life := Replaying(a.life.pending - {id}));
    if a.journal[id].Readable? then
      var entry := a.journal[id].entry;
      b.(tasks := a.tasks[id := ReplayTask(ReplayTarget(InTime(nowMs, entry.deadlineUnix)), entry)])
    // An entry that cannot be read cannot be recovered: quarantine, and keep the entry.
    else b.(tainted := a.tainted || marked, excused := if a.tainted || marked then a.excused else a.excused + {id})
  }

  function Act(a: Agent, act: Action): Agent
    requires CanAct(a, act)
  {
    match act
    case RunFault(id, own) => AfterRunFault(a, id, own)
    case Do(id, m) => AfterDo(a, id, m)
    case Report => a.(sent := a.sent + Reported(a))
    case Corrupt(id) => a.(journal := a.journal[id := Unreadable])
    case ClearTaint(cleared) =>
      if cleared && a.tainted then a.(tainted := false, excused := a.excused + a.dirty) else a
    case Crash => a.(life := Down, tasks := map[], injected := {})
    case Restart(listed) =>
      a.(life := if listed then Replaying(a.journal.Keys) else Up(false))
    case ReplayNext(id, nowMs, marked) => AfterReplayNext(a, id, nowMs, marked)
    case OpenSessions => a.(life := Up(true), tasks := map[], injected := {})
  }

  // ----- The invariant -----

  predicate TasksOk(a: Agent) {
    forall id :: id in a.tasks ==> CellInv(CellOf(a, id))
  }

  /** An unshielded dirty instance is in somebody's hands: its task's, or the coming replay's, or, after
      a restart without one, that of the replay after the next crash. */
  predicate DirtyOk(a: Agent) {
    forall id :: id in a.dirty ==>
      || Shielded(a, id) || id in a.tasks
      || ((a.life.Down? || a.life == Up(false)) && id in a.journal)
      || (a.life.Replaying? && id in a.life.pending)
  }

  predicate LifeOk(a: Agent) {
    match a.life
    case Down => a.tasks == map[]
    case Replaying(pending) =>
      pending <= a.journal.Keys && pending !! a.tasks.Keys && forall id :: id in a.tasks ==> CannotInject(a.tasks[id])
    case Up(_) => true
  }

  predicate CannotInject(t: Task) {
    !t.settingUp && (t.state.Recovering? || t.state.IsTerminal())
  }

  predicate HistoryOk(a: Agent) {
    && a.dirty <= a.accepted && a.journal.Keys <= a.accepted && a.tasks.Keys <= a.accepted
    && (forall p :: p in a.sent ==> p.0 in a.accepted)
  }

  /** The inject process of this task has been started. */
  predicate PastSpawn(t: Task) {
    || (t.state.Injecting? && (t.running || t.todo == []))
    || t.state.Active? || t.state.Recovering? || t.state.IsTerminal()
  }

  predicate InjectedOk(a: Agent) {
    forall id :: id in a.injected ==> id in a.tasks && PastSpawn(a.tasks[id])
  }

  /** A clean ending was reported. */
  predicate ReportedClean(a: Agent, id: InstanceId) {
    (id, InstanceState.Done) in a.sent || (id, InstanceState.Aborted) in a.sent
  }

  predicate CleanReportsOk(a: Agent) {
    forall id :: id in a.accepted && id !in a.readmitted ==>
      && (id in a.tasks ==> a.tasks[id].pristine)
      && (ReportedClean(a, id) ==> id !in a.dirty && (id in a.tasks ==> CannotInject(a.tasks[id])))
  }

  predicate StatusPending(t: Task) {
    exists k :: 0 <= k < |t.todo| && t.todo[k].EmitStatus?
  }

  /** The last status an instance sent is its state, unless the next one is still to be sent. */
  predicate SaidOk(a: Agent) {
    forall id :: id in a.tasks ==>
      StatusPending(a.tasks[id]) || (id in a.said && a.said[id] == a.tasks[id].state.InstanceStateOf())
  }

  /** The entry of `id` came with one of its RunFaults. */
  predicate IsOwn(a: Agent, id: InstanceId, entry: JournalEntry) {
    entry in a.owns && entry.instanceId == id
  }

  /** Tasks and readable journal entries hold what a RunFault of their instance carried, and an id accepted
      once carried one thing. */
  predicate OwnOk(a: Agent) {
    && (forall id :: id in a.tasks ==> IsOwn(a, id, a.tasks[id].own))
    && (forall id :: id in a.journal && a.journal[id].Readable? ==> IsOwn(a, id, a.journal[id].entry))
    && (forall e :: e in a.owns ==> e.instanceId in a.accepted)
    && (forall e, f :: e in a.owns && f in a.owns && e.instanceId == f.instanceId && e != f ==>
                         e.instanceId in a.readmitted)
  }

  predicate AgentInv(a: Agent) {
    && TasksOk(a) && DirtyOk(a) && LifeOk(a) && HistoryOk(a) && InjectedOk(a) && CleanReportsOk(a) && SaidOk(a)
    && OwnOk(a)
  }

  // ----- Every action keeps it -----

  /** One instance's micro-step shows in another's cell only through the quarantine. */
  lemma OtherCell(a: Agent, id: InstanceId, c: Cell, other: InstanceId)
    requires id in a.tasks && other in a.tasks && other != id
    ensures CellOf(PutCell(a, id, c), other) == CellOf(a, other).(tainted := c.tainted)
  {
  }

  lemma SameCell(a: Agent, id: InstanceId, c: Cell)
    ensures CellOf(PutCell(a, id, c), id) == c
  {
  }

  /** A quarantine breaks no instance's invariant. */
  lemma QuarantineKeeps(c: Cell, tainted: bool)
    requires CellInv(c) && (c.tainted ==> tainted)
    ensures CellInv(c.(tainted := tainted))
  {
  }

  lemma DoKeepsTasks(a: Agent, id: InstanceId, m: Micro)
    requires AgentInv(a) && id in a.tasks && Enabled(CellOf(a, id), m)
    ensures TasksOk(AfterDo(a, id, m))
  {
    hide DirtyOk, LifeOk, HistoryOk, InjectedOk, CleanReportsOk, SaidOk, OwnOk;
    var c := CellOf(a, id);
    var b := AfterDo(a, id, m);
    MicroKeeps(c, m);
    forall other | other in b.tasks
      ensures CellInv(CellOf(b, other))
    {
      if other == id {
        SameCell(a, id, After(c, m));
        assert CellOf(b, id) == After(c, m);
      } else {
        OtherCell(a, id, After(c, m), other);
        QuarantineKeeps(CellOf(a, other), After(c, m).tainted);
        assert CellOf(b, other) == CellOf(a, other).(tainted := After(c, m).tainted);
      }
    }
  }

  /** What a micro-step never takes back. */
  lemma MicroOnlyAdds(c: Cell, m: Micro)
    requires Enabled(c, m)
    ensures c.tainted ==> After(c, m).tainted
    ensures c.excused ==> After(c, m).excused
    ensures After(c, m).task.pristine == c.task.pristine
    ensures After(c, m).task.own == c.task.own
    ensures After(c, m).entry in {c.entry, None, Some(Readable(c.task.own))}
  {
  }

  lemma MicroFacts(c: Cell, m: Micro)
    requires CellInv(c) && Enabled(c, m)
    ensures c.tainted ==> After(c, m).tainted
    ensures c.excused ==> After(c, m).excused
    ensures After(c, m).task.pristine == c.task.pristine
    ensures CannotInject(c.task) ==> CannotInject(After(c, m).task) && (After(c, m).dirty ==> c.dirty)
    ensures PastSpawn(c.task) ==> PastSpawn(After(c, m).task)
    ensures m.Spawn? && c.task.todo[0].command.Inject? ==> !PastSpawn(c.task) && PastSpawn(After(c, m).task)
    ensures m.Emit? && c.task.todo[0].state.IsTerminal() ==>
              c.task.state.InstanceStateOf() == c.task.todo[0].state && !m.Spawn? && CannotInject(c.task)
  {
    MicroOnlyAdds(c, m);
  }

  lemma DoKeepsHistory(a: Agent, id: InstanceId, m: Micro)
    requires AgentInv(a) && id in a.tasks && Enabled(CellOf(a, id), m)
    ensures HistoryOk(AfterDo(a, id, m)) && InjectedOk(AfterDo(a, id, m))
  {
    hide DirtyOk, LifeOk, CleanReportsOk, SaidOk, OwnOk;
    MicroFacts(CellOf(a, id), m);
    assert AfterDo(a, id, m).tasks.Keys == a.tasks.Keys;
  }

  lemma DoKeepsDirty(a: Agent, id: InstanceId, m: Micro)
    requires AgentInv(a) && id in a.tasks && Enabled(CellOf(a, id), m)
    ensures DirtyOk(AfterDo(a, id, m)) && LifeOk(AfterDo(a, id, m))
  {
    hide HistoryOk, InjectedOk, CleanReportsOk, SaidOk, OwnOk;
    MicroFacts(CellOf(a, id), m);
  }

  lemma DoKeepsCleanReports(a: Agent, id: InstanceId, m: Micro)
    requires AgentInv(a) && id in a.tasks && Enabled(CellOf(a, id), m)
    ensures CleanReportsOk(AfterDo(a, id, m))
  {
    hide DirtyOk, LifeOk, InjectedOk, SaidOk, OwnOk;
    var c := CellOf(a, id);
    var b := AfterDo(a, id, m);
    MicroFacts(c, m);
    assert id in a.accepted;
    forall i | i in b.accepted && i !in b.readmitted
      ensures i in b.tasks ==> b.tasks[i].pristine
      ensures ReportedClean(b, i) ==> i !in b.dirty && (i in b.tasks ==> CannotInject(b.tasks[i]))
    {
      if i == id {
        if !ReportedClean(a, i) && ReportedClean(b, i) {
          CleanEndingIsClean(c);
        }
      } else {
        assert ReportedClean(b, i) <==> ReportedClean(a, i);
      }
    }
  }

  /** A step that changes the state the master sees has a status for it. */
  lemma StepSays(state: State, event: Event)
    ensures var (next, effects) := Step(state, event);
            || next.InstanceStateOf() == state.InstanceStateOf()
            || exists k :: 0 <= k < |effects| && effects[k].EmitStatus?
  {
    var (next, effects) := Step(state, event);
    if next.InstanceStateOf() != state.InstanceStateOf() {
      StepHasShape(state, event);
      assert effects[0].EmitStatus? || effects[|effects| - 1].EmitStatus?;
    }
  }

  lemma MicroSays(c: Cell, m: Micro)
    requires CellInv(c) && Enabled(c, m)
    ensures m.Emit? ==> c.task.todo[0].state == After(c, m).task.state.InstanceStateOf()
    ensures !m.Emit? && StatusPending(c.task) ==> StatusPending(After(c, m).task)
    ensures After(c, m).task.state.InstanceStateOf() == c.task.state.InstanceStateOf()
            || StatusPending(After(c, m).task)
  {
    var t, u := c.task, After(c, m).task;
    if m.Take? {
      StepSays(t.state, t.queue[0]);
    } else if m.Waited? {
      StepSays(t.state, StopRequested(m.cause));
    } else if !m.Emit? && StatusPending(t) {
      FramedIsNotWedged(t);
      var k :| 0 <= k < |t.todo| && t.todo[k].EmitStatus?;
      assert u.todo == t.todo || (k > 0 && u.todo[k - 1] == t.todo[k]);
    }
    if m.Fallback? {
      FramedIsNotWedged(t);
    }
  }

  lemma DoKeepsSaid(a: Agent, id: InstanceId, m: Micro)
    requires AgentInv(a) && id in a.tasks && Enabled(CellOf(a, id), m)
    ensures SaidOk(AfterDo(a, id, m))
  {
    hide DirtyOk, LifeOk, HistoryOk, InjectedOk, CleanReportsOk, OwnOk;
    MicroSays(CellOf(a, id), m);
  }

  lemma DoKeepsOwn(a: Agent, id: InstanceId, m: Micro)
    requires AgentInv(a) && id in a.tasks && Enabled(CellOf(a, id), m)
    ensures OwnOk(AfterDo(a, id, m))
  {
    hide TasksOk, DirtyOk, LifeOk, HistoryOk, InjectedOk, CleanReportsOk, SaidOk;
    MicroOnlyAdds(CellOf(a, id), m);
  }

  lemma DoKeeps(a: Agent, id: InstanceId, m: Micro)
    requires AgentInv(a) && id in a.tasks && Enabled(CellOf(a, id), m)
    ensures AgentInv(AfterDo(a, id, m))
  {
    hide TasksOk, DirtyOk, LifeOk, HistoryOk, InjectedOk, CleanReportsOk, SaidOk, AfterDo, OwnOk;
    DoKeepsTasks(a, id, m);
    DoKeepsHistory(a, id, m);
    DoKeepsDirty(a, id, m);
    DoKeepsCleanReports(a, id, m);
    DoKeepsSaid(a, id, m);
    DoKeepsOwn(a, id, m);
  }

  lemma NewTasksSpeak(pristine: bool, outcome: Outcome, own: JournalEntry)
    ensures StatusPending(NewTask(pristine, own)) && StatusPending(ReplayTask(outcome, own))
  {
    assert NewTask(pristine, own).todo[0].EmitStatus? && ReplayTask(outcome, own).todo[0].EmitStatus?;
  }

  lemma RunFaultKeepsTasks(a: Agent, id: InstanceId, own: JournalEntry)
    requires AgentInv(a) && CanAct(a, RunFault(id, own))
    ensures TasksOk(AfterRunFault(a, id, own)) && SaidOk(AfterRunFault(a, id, own))
  {
    hide CellInv;
    hide DirtyOk, LifeOk, HistoryOk, InjectedOk, CleanReportsOk, OwnOk;
    var b := AfterRunFault(a, id, own);
    if b != a {
      NewTasksSpeak(id !in a.dirty, Outcome.Aborted, own);
      NewCellKeeps(CellOf(b, id));
      forall i | i in b.tasks
        ensures CellInv(CellOf(b, i))
      {
        assert i != id ==> CellOf(b, i) == CellOf(a, i);
      }
    }
  }

  lemma RunFaultKeeps(a: Agent, id: InstanceId, own: JournalEntry)
    requires AgentInv(a) && CanAct(a, RunFault(id, own))
    ensures AgentInv(AfterRunFault(a, id, own))
  {
    hide AfterRunFault, CanAct, TasksOk, DirtyOk, LifeOk, HistoryOk, InjectedOk, CleanReportsOk, SaidOk, OwnOk;
    RunFaultKeepsTasks(a, id, own);
    RunFaultKeepsRest(a, id, own);
    RunFaultKeepsReports(a, id, own);
    RunFaultKeepsOwn(a, id, own);
  }

  lemma RunFaultKeepsRest(a: Agent, id: InstanceId, own: JournalEntry)
    requires AgentInv(a) && CanAct(a, RunFault(id, own))
    ensures DirtyOk(AfterRunFault(a, id, own)) && LifeOk(AfterRunFault(a, id, own))
    ensures HistoryOk(AfterRunFault(a, id, own)) && InjectedOk(AfterRunFault(a, id, own))
  {
    hide TasksOk, CleanReportsOk, SaidOk, OwnOk;
  }

  lemma RunFaultKeepsReports(a: Agent, id: InstanceId, own: JournalEntry)
    requires AgentInv(a) && CanAct(a, RunFault(id, own))
    ensures CleanReportsOk(AfterRunFault(a, id, own))
  {
    hide TasksOk, DirtyOk, InjectedOk, SaidOk, OwnOk;
  }

  lemma RunFaultKeepsOwn(a: Agent, id: InstanceId, own: JournalEntry)
    requires AgentInv(a) && CanAct(a, RunFault(id, own))
    ensures OwnOk(AfterRunFault(a, id, own))
  {
    hide TasksOk, DirtyOk, LifeOk, InjectedOk, CleanReportsOk, SaidOk;
  }

  lemma NewCellKeeps(c: Cell)
    requires c.task == NewTask(!c.dirty, c.task.own) && (c.dirty ==> c.Shielded())
    ensures CellInv(c)
  {
  }

  lemma CrashKeeps(a: Agent)
    requires AgentInv(a)
    ensures AgentInv(Act(a, Crash))
  {
    forall id | id in a.tasks
      ensures id in a.dirty ==> id in a.journal || Shielded(a, id)
    {
      CellIsSafe(CellOf(a, id));
    }
  }

  lemma ReplayStartKeeps(c: Cell, target: Outcome)
    requires c.task == ReplayTask(target, c.task.own) && !target.Done? && c.entry == Some(Readable(c.task.own))
    ensures CellInv(c)
  {
  }

  lemma ReplayNextKeepsTasks(a: Agent, id: InstanceId, nowMs: nat, marked: bool)
    requires AgentInv(a) && CanAct(a, ReplayNext(id, nowMs, marked))
    ensures TasksOk(AfterReplayNext(a, id, nowMs, marked))
  {
    hide CellInv, DirtyOk, HistoryOk, InjectedOk, CleanReportsOk, SaidOk, OwnOk;
    var b := AfterReplayNext(a, id, nowMs, marked);
    forall i | i in b.tasks
      ensures CellInv(CellOf(b, i))
    {
      if i in a.tasks {
        assert i != id;
        QuarantineKeeps(CellOf(a, i), b.tainted);
        assert CellOf(b, i) == CellOf(a, i).(tainted := b.tainted);
      } else {
        ReplayStartKeeps(CellOf(b, i), ReplayTarget(InTime(nowMs, a.journal[id].entry.deadlineUnix)));
      }
    }
  }

  lemma ReplayNextKeepsRest(a: Agent, id: InstanceId, nowMs: nat, marked: bool)
    requires AgentInv(a) && CanAct(a, ReplayNext(id, nowMs, marked))
    ensures var b := AfterReplayNext(a, id, nowMs, marked);
            DirtyOk(b) && LifeOk(b) && HistoryOk(b) && InjectedOk(b)
  {
    hide TasksOk, CleanReportsOk, SaidOk, OwnOk;
    assert AfterReplayNext(a, id, nowMs, marked).tasks.Keys <= AfterReplayNext(a, id, nowMs, marked).accepted;
  }

  lemma ReplayNextKeepsSaid(a: Agent, id: InstanceId, nowMs: nat, marked: bool)
    requires AgentInv(a) && CanAct(a, ReplayNext(id, nowMs, marked))
    ensures SaidOk(AfterReplayNext(a, id, nowMs, marked))
  {
    hide TasksOk, DirtyOk, LifeOk, HistoryOk, InjectedOk, CleanReportsOk, StatusPending, OwnOk;
    if a.journal[id].Readable? {
      var entry := a.journal[id].entry;
      NewTasksSpeak(true, ReplayTarget(InTime(nowMs, entry.deadlineUnix)), entry);
    }
  }

  lemma ReplayNextKeepsCleanReports(a: Agent, id: InstanceId, nowMs: nat, marked: bool)
    requires AgentInv(a) && CanAct(a, ReplayNext(id, nowMs, marked))
    ensures CleanReportsOk(AfterReplayNext(a, id, nowMs, marked))
  {
    hide TasksOk, DirtyOk, SaidOk, InjectedOk, OwnOk;
  }

  lemma ReplayNextKeeps(a: Agent, id: InstanceId, nowMs: nat, marked: bool)
    requires AgentInv(a) && CanAct(a, ReplayNext(id, nowMs, marked))
    ensures AgentInv(AfterReplayNext(a, id, nowMs, marked))
  {
    hide AfterReplayNext, CanAct, TasksOk, DirtyOk, LifeOk, HistoryOk, InjectedOk, CleanReportsOk, SaidOk, OwnOk;
    ReplayNextKeepsTasks(a, id, nowMs, marked);
    ReplayNextKeepsRest(a, id, nowMs, marked);
    ReplayNextKeepsCleanReports(a, id, nowMs, marked);
    ReplayNextKeepsSaid(a, id, nowMs, marked);
    ReplayNextKeepsOwn(a, id, nowMs, marked);
  }

  lemma ReplayNextKeepsOwn(a: Agent, id: InstanceId, nowMs: nat, marked: bool)
    requires AgentInv(a) && CanAct(a, ReplayNext(id, nowMs, marked))
    ensures OwnOk(AfterReplayNext(a, id, nowMs, marked))
  {
    hide TasksOk, DirtyOk, LifeOk, HistoryOk, InjectedOk, CleanReportsOk, SaidOk;
  }

  lemma OpenSessionsKeeps(a: Agent)
    requires AgentInv(a) && CanAct(a, OpenSessions)
    ensures AgentInv(Act(a, OpenSessions))
  {
    forall id | id in a.tasks
      ensures id in a.dirty ==> Shielded(a, id)
    {
      assert CellInv(CellOf(a, id)) && Finished(a.tasks[id]);
    }
  }

  lemma OthersKeepTasks(a: Agent, act: Action)
    requires AgentInv(a) && CanAct(a, act)
    requires act.Report? || act.Corrupt? || act.ClearTaint? || act.Restart?
    ensures TasksOk(Act(a, act))
  {
    hide DirtyOk, LifeOk, HistoryOk, InjectedOk, CleanReportsOk, SaidOk, OwnOk;
    forall id | id in Act(a, act).tasks
      ensures CellInv(CellOf(Act(a, act), id))
    {
      assert CellInv(CellOf(a, id));
    }
  }

  lemma OthersKeepDirty(a: Agent, act: Action)
    requires AgentInv(a) && CanAct(a, act)
    requires act.Report? || act.Corrupt? || act.ClearTaint? || act.Restart?
    ensures DirtyOk(Act(a, act)) && LifeOk(Act(a, act))
  {
    hide TasksOk, HistoryOk, InjectedOk, CleanReportsOk, SaidOk, CannotInject, OwnOk;
    assert Act(a, act).journal.Keys == a.journal.Keys;
  }

  lemma OthersKeepReports(a: Agent, act: Action)
    requires AgentInv(a) && CanAct(a, act)
    requires act.Report? || act.Corrupt? || act.ClearTaint? || act.Restart?
    ensures CleanReportsOk(Act(a, act))
  {
    hide TasksOk, DirtyOk, LifeOk, InjectedOk, SaidOk, OwnOk;
  }

  lemma OthersKeepHistory(a: Agent, act: Action)
    requires AgentInv(a) && CanAct(a, act)
    requires act.Report? || act.Corrupt? || act.ClearTaint? || act.Restart?
    ensures HistoryOk(Act(a, act)) && InjectedOk(Act(a, act)) && SaidOk(Act(a, act))
  {
    hide TasksOk, DirtyOk, LifeOk, CleanReportsOk, OwnOk;
    assert Act(a, act).journal.Keys == a.journal.Keys;
  }

  lemma OthersKeepOwn(a: Agent, act: Action)
    requires AgentInv(a) && CanAct(a, act)
    requires act.Report? || act.Corrupt? || act.ClearTaint? || act.Restart?
    ensures OwnOk(Act(a, act))
  {
    hide TasksOk, DirtyOk, LifeOk, HistoryOk, InjectedOk, CleanReportsOk, SaidOk;
  }

  lemma OthersKeep(a: Agent, act: Action)
    requires AgentInv(a) && CanAct(a, act)
    requires act.Report? || act.Corrupt? || act.ClearTaint? || act.Restart?
    ensures AgentInv(Act(a, act))
  {
    OthersKeepTasks(a, act);
    OthersKeepDirty(a, act);
    OthersKeepReports(a, act);
    OthersKeepOwn(a, act);
    OthersKeepHistory(a, act);
    hide TasksOk, DirtyOk, LifeOk, HistoryOk, InjectedOk, CleanReportsOk, SaidOk, OwnOk, Act, CanAct;
  }

  lemma ActKeeps(a: Agent, act: Action)
    requires AgentInv(a) && CanAct(a, act)
    ensures AgentInv(Act(a, act))
  {
    match act {
      case RunFault(id, own) => RunFaultKeeps(a, id, own);
      case Do(id, m) => DoKeeps(a, id, m);
      case Crash => CrashKeeps(a);
      case ReplayNext(id, nowMs, marked) => ReplayNextKeeps(a, id, nowMs, marked);
      case OpenSessions => OpenSessionsKeeps(a);
      case _ => OthersKeep(a, act);
    }
  }

  // ----- Runs -----

  predicate Possible(a: Agent, acts: seq<Action>)
    decreases |acts|
  {
    acts == [] || (CanAct(a, acts[0]) && Possible(Act(a, acts[0]), acts[1..]))
  }

  function RunAgent(a: Agent, acts: seq<Action>): Agent
    requires Possible(a, acts)
    decreases |acts|
  {
    if acts == [] then a else RunAgent(Act(a, acts[0]), acts[1..])
  }

  lemma {:induction false} RunAgentKeeps(a: Agent, acts: seq<Action>)
    requires AgentInv(a) && Possible(a, acts)
    ensures AgentInv(RunAgent(a, acts))
    decreases |acts|
  {
    if acts != [] {
      ActKeeps(a, acts[0]);
      RunAgentKeeps(Act(a, acts[0]), acts[1..]);
    }
  }

  /** The action persists every quarantine it attempts, is no operator clear, and starts no instance over
      a fault that a restart without replay has passed over. */
  predicate Faithful(a: Agent, act: Action) {
    match act
    case Do(_, Quarantine(ok)) => ok
    case ReplayNext(_, _, marked) => marked
    case ClearTaint(_) => false
    case RunFault(id, _) => a.life == Up(false) && id in a.dirty ==> a.tainted || Drops(a, id)
    case _ => true
  }

  predicate FaithfulRun(a: Agent, acts: seq<Action>)
    requires Possible(a, acts)
    decreases |acts|
  {
    acts == [] || (Faithful(a, acts[0]) && FaithfulRun(Act(a, acts[0]), acts[1..]))
  }

  lemma FaithfulActExcusesNobody(a: Agent, act: Action)
    requires AgentInv(a) && CanAct(a, act) && a.excused == {} && Faithful(a, act)
    ensures Act(a, act).excused == {}
  {
  }

  lemma {:induction false} FaithfulExcusesNobody(a: Agent, acts: seq<Action>)
    requires AgentInv(a) && Possible(a, acts) && a.excused == {} && FaithfulRun(a, acts)
    ensures RunAgent(a, acts).excused == {}
    decreases |acts|
  {
    hide AgentInv, Faithful, Act, CanAct;
    if acts != [] {
      ActKeeps(a, acts[0]);
      FaithfulActExcusesNobody(a, acts[0]);
      FaithfulExcusesNobody(Act(a, acts[0]), acts[1..]);
    }
  }

  /** Crash safety. After any run whatsoever, so at every micro-step of every interleaving of
      instances, invocations, crashes, restarts and replays: a host that may carry an instance's
      fault has a journal entry for it, or is tainted, or the instance was excused. */
  lemma NoFaultIsForgotten(acts: seq<Action>)
    requires Possible(Fresh(), acts)
    ensures var a := RunAgent(Fresh(), acts);
            forall id :: id in a.dirty ==> id in a.journal || a.tainted || id in a.excused
  {
    RunAgentKeeps(Fresh(), acts);
    var a := RunAgent(Fresh(), acts);
    forall id | id in a.dirty
      ensures id in a.journal || Shielded(a, id)
    {
      if id in a.tasks {
        CellIsSafe(CellOf(a, id));
      }
    }
  }

  /** The same without excuses, for runs in which every quarantine is persisted and no operator clears
      the taint. The journal may even fail to be listed: its entries stay for the next replay, as long as
      no instance is started over a fault that was passed over. */
  lemma CrashSafety(acts: seq<Action>)
    requires Possible(Fresh(), acts) && FaithfulRun(Fresh(), acts)
    ensures var a := RunAgent(Fresh(), acts);
            forall id :: id in a.dirty ==> id in a.journal || a.tainted
  {
    NoFaultIsForgotten(acts);
    FaithfulExcusesNobody(Fresh(), acts);
  }

  /** Once sessions are open after a replay, an instance that may have left its fault on the host either still has
      its task in charge of it, or the host is quarantined (or it was excused). */
  lemma ReplayLeavesNothingBehind(acts: seq<Action>, id: InstanceId)
    requires Possible(Fresh(), acts)
    requires RunAgent(Fresh(), acts).life == Up(true) && id in RunAgent(Fresh(), acts).dirty
    ensures var a := RunAgent(Fresh(), acts);
            Shielded(a, id) || (id in a.tasks && Carries(a.tasks[id]) && id in a.journal)
  {
    hide HistoryOk, InjectedOk, CleanReportsOk, SaidOk, OwnOk;
    RunAgentKeeps(Fresh(), acts);
    var a := RunAgent(Fresh(), acts);
    if !Shielded(a, id) {
      assert CellInv(CellOf(a, id));
    }
  }

  lemma {:induction false} OwnsGrow(a: Agent, acts: seq<Action>)
    requires Possible(a, acts)
    ensures a.owns <= RunAgent(a, acts).owns && a.accepted <= RunAgent(a, acts).accepted
    decreases |acts|
  {
    if acts != [] {
      OwnsGrow(Act(a, acts[0]), acts[1..]);
    }
  }

  /** An instance that needs its journal entry has its own there, unless the file was corrupted. */
  lemma JournalIsOwn(acts: seq<Action>, id: InstanceId)
    requires Possible(Fresh(), acts)
    requires id in RunAgent(Fresh(), acts).tasks && Journaled(RunAgent(Fresh(), acts).tasks[id])
    ensures var a := RunAgent(Fresh(), acts);
            && id in a.journal && a.tasks[id].own.instanceId == id && a.tasks[id].own in a.owns
            && a.journal[id] in {Unreadable, Readable(a.tasks[id].own)}
  {
    hide DirtyOk, LifeOk, HistoryOk, InjectedOk, CleanReportsOk, SaidOk, Framed, Carries, Journaled, RunAgent, Possible;
    FreshIsGood();
    RunAgentKeeps(Fresh(), acts);
    assert CellInv(CellOf(RunAgent(Fresh(), acts), id));
  }

  /** From a RunFault to a later replay, whatever happens in between, crashes included: unless the id was
      accepted twice, what the replay reads is the entry of that RunFault, and it aims at ABORTED exactly as
      long as the entry's deadline has not been reached. */
  lemma ReplayKnowsItsFault(before: seq<Action>, id: InstanceId, own: JournalEntry, after: seq<Action>,
                            nowMs: nat, marked: bool)
    requires Possible(Fresh(), before) && CanAct(RunAgent(Fresh(), before), RunFault(id, own))
    requires !Drops(RunAgent(Fresh(), before), id)
    requires Possible(Act(RunAgent(Fresh(), before), RunFault(id, own)), after)
    requires var a := RunAgent(Act(RunAgent(Fresh(), before), RunFault(id, own)), after);
             CanAct(a, ReplayNext(id, nowMs, marked)) && id !in a.readmitted && a.journal[id].Readable?
    ensures var a := RunAgent(Act(RunAgent(Fresh(), before), RunFault(id, own)), after);
            var t := Act(a, ReplayNext(id, nowMs, marked)).tasks[id];
            && a.journal[id].entry == own && t.own == own && t.state.Recovering?
            && t.state.rec.outcome == if nowMs / 1000 < own.deadlineUnix then Outcome.Aborted else Outcome.Error
  {
    hide TasksOk, DirtyOk, LifeOk, HistoryOk, InjectedOk, CleanReportsOk, SaidOk, OwnOk, RunAgent, Possible;
    var was := RunAgent(Fresh(), before);
    var start := Act(was, RunFault(id, own));
    FreshIsGood();
    RunAgentKeeps(Fresh(), before);
    ActKeeps(was, RunFault(id, own));
    RunAgentKeeps(start, after);
    OwnsGrow(start, after);
    assert own in start.owns;
    RecallsOwn(RunAgent(start, after), id, own);
  }

  lemma FreshIsGood()
    ensures AgentInv(Fresh())
  {
  }

  lemma RecallsOwn(a: Agent, id: InstanceId, own: JournalEntry)
    requires OwnOk(a) && own in a.owns && own.instanceId == id && id !in a.readmitted
    ensures id in a.journal && a.journal[id].Readable? ==> a.journal[id].entry == own
  {
  }

  /** A journal file that breaks at any moment is no way out: after the next crash, restart and replay the host
      is quarantined, and the file is still there. */
  lemma CorruptionQuarantines(a: Agent, id: InstanceId, nowMs: nat)
    requires CanAct(a, Corrupt(id)) && a.life.Up?
    ensures var acts := [Corrupt(id), Crash, Restart(true), ReplayNext(id, nowMs, true)];
            && Possible(a, acts)
            && var b := RunAgent(a, acts);
               b.tainted && id in b.journal && b.journal[id] == Unreadable && b.tasks == map[]
  {
    var b := Act(a, Corrupt(id));
    var c := Act(b, Crash);
    var d := Act(c, Restart(true));
    var last := ReplayNext(id, nowMs, true);
    RunAgentFirst(d, last, []);
    assert [last] + [] == [last];
    RunAgentFirst(c, Restart(true), [last]);
    assert [Restart(true)] + [last] == [Restart(true), last];
    RunAgentFirst(b, Crash, [Restart(true), last]);
    assert [Crash] + [Restart(true), last] == [Crash, Restart(true), last];
    RunAgentFirst(a, Corrupt(id), [Crash, Restart(true), last]);
    assert [Corrupt(id)] + [Crash, Restart(true), last] == [Corrupt(id), Crash, Restart(true), last];
  }

  lemma RunAgentFirst(a: Agent, act: Action, acts: seq<Action>)
    requires CanAct(a, act) && Possible(Act(a, act), acts)
    ensures Possible(a, [act] + acts) && RunAgent(a, [act] + acts) == RunAgent(Act(a, act), acts)
  {
    assert ([act] + acts)[1..] == acts;
  }

  /** Every life with sessions starts without tasks, so a RunFault can be accepted again that an earlier life
      knew already. */
  lemma LivesStartEmpty(acts: seq<Action>, act: Action)
    requires Possible(Fresh(), acts) && CanAct(RunAgent(Fresh(), acts), act)
    requires act == OpenSessions || act == Restart(false)
    ensures var a := Act(RunAgent(Fresh(), acts), act);
            a.life.Up? && a.tasks == map[] && a.injected == {}
  {
    hide TasksOk, DirtyOk, HistoryOk, CleanReportsOk, SaidOk, OwnOk;
    FreshIsGood();
    RunAgentKeeps(Fresh(), acts);
  }

  /** An operator's clear does need its excuse: it takes the quarantine from a fault that may still be on the
      host, and nothing else protects that. */
  lemma ClearingStrands(a: Agent, id: InstanceId)
    requires CanAct(a, ClearTaint(true)) && a.tainted && id in a.dirty && id !in a.journal
    ensures var b := Act(a, ClearTaint(true));
            id in b.dirty && id !in b.journal && !b.tainted && id in b.excused
  {
  }

  /** Whatever RunFault frames arrive, duplicated or not: the inject process of an instance is started
      at most once in a life of the agent, and never again once its clean ending was reported. */
  lemma InjectStartsOnce(acts: seq<Action>, id: InstanceId)
    requires Possible(Fresh(), acts)
    requires CanAct(RunAgent(Fresh(), acts), Do(id, Spawn))
    requires RunAgent(Fresh(), acts).tasks[id].todo[0].command.Inject?
    ensures var a := RunAgent(Fresh(), acts);
            && id !in a.injected
            && id in Act(a, Do(id, Spawn)).injected
            && (id !in a.readmitted ==> !ReportedClean(a, id))
  {
    RunAgentKeeps(Fresh(), acts);
    var a := RunAgent(Fresh(), acts);
    MicroFacts(CellOf(a, id), Spawn);
  }

  /** Every status sent is the machine's own state at that moment; so a DONE that was sent means that
      the machine had ended in DONE. */
  lemma StatusesAreStates(acts: seq<Action>, id: InstanceId)
    requires Possible(Fresh(), acts) && CanAct(RunAgent(Fresh(), acts), Do(id, Emit))
    ensures var a := RunAgent(Fresh(), acts);
            && a.tasks[id].state.InstanceStateOf() == a.tasks[id].todo[0].state
            && Act(a, Do(id, Emit)).sent == a.sent + {(id, a.tasks[id].state.InstanceStateOf())}
  {
    hide DirtyOk, LifeOk, HistoryOk, InjectedOk, CleanReportsOk, SaidOk, OwnOk;
    RunAgentKeeps(Fresh(), acts);
    assert CellInv(CellOf(RunAgent(Fresh(), acts), id));
  }

  /** At the loop heads the report and the status stream agree: an instance with no effect pending is
      listed exactly when the last status it sent was not terminal, and with that status. */
  lemma ReportIsTheStream(acts: seq<Action>, id: InstanceId)
    requires Possible(Fresh(), acts)
    requires id in RunAgent(Fresh(), acts).tasks && RunAgent(Fresh(), acts).tasks[id].todo == []
    ensures var a := RunAgent(Fresh(), acts);
            && id in a.said
            && (forall state :: (id, state) in Reported(a) <==> state == a.said[id] && !state.IsTerminal())
            && (a.life.Up? && !a.said[id].IsTerminal() ==> (id, a.said[id]) in Act(a, Action.Report).sent)
  {
    hide TasksOk, DirtyOk, LifeOk, HistoryOk, InjectedOk, CleanReportsOk, OwnOk;
    RunAgentKeeps(Fresh(), acts);
    var a := RunAgent(Fresh(), acts);
    assert !StatusPending(a.tasks[id]);
    assert a.said[id] == a.tasks[id].state.InstanceStateOf();
  }

  /** No instance is ever wedged. */
  lemma NeverWedged(acts: seq<Action>, id: InstanceId)
    requires Possible(Fresh(), acts) && id in RunAgent(Fresh(), acts).tasks
    ensures !Wedged(RunAgent(Fresh(), acts).tasks[id])
  {
    RunAgentKeeps(Fresh(), acts);
    assert CellInv(CellOf(RunAgent(Fresh(), acts), id));
    FramedIsNotWedged(RunAgent(Fresh(), acts).tasks[id]);
  }

  /** A DONE or ABORTED that was ever sent tells the truth from then on: the fault of that instance
      is not on the host, provided its RunFault was consumed at most once. */
  lemma CleanReportsAreTrue(acts: seq<Action>, id: InstanceId)
    requires Possible(Fresh(), acts)
    requires ReportedClean(RunAgent(Fresh(), acts), id) && id !in RunAgent(Fresh(), acts).readmitted
    ensures id !in RunAgent(Fresh(), acts).dirty
  {
    RunAgentKeeps(Fresh(), acts);
  }
}
