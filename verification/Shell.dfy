/** The imperative shell of a live instance: its event-queue loop, and the effects it performs, which the
    replay loop of Replay performs too. Every method is proved to be a legal micro-step run of its cell
    (see Task) in which the outside answers as its world says (see Worlds), so the invariants, the crash
    safety and the agreement of the drivers, proved of such runs, hold of it. */
module Shell {
  import opened Lifecycle
  import opened Sequences
  import opened Machine
  import opened MachineRuns
  import opened Task
  import opened TaskRuns
  import opened Endings
  import opened Worlds
  import opened HostState

  datatype Frame =
    | Status(id: InstanceId, state: InstanceState, reason: Option<Reason>)
    | TaintReport(tainted: bool)

  class Host {
    const journal: Journal
    const taint: Taint
    /** Frames to the master, in the order they are queued. */
    var frames: seq<Frame>
    /** Instances whose fault may be on the host. */
    ghost var dirty: set<InstanceId>
    /** Instances whose quarantine could not be persisted, or that were started over an unmarked fault. */
    ghost var excused: set<InstanceId>
    /** Instances whose journal entry could not be removed. */
    ghost var stuck: set<InstanceId>

    constructor (journal: Journal, taint: Taint)
      ensures this.journal == journal && this.taint == taint
      ensures frames == [] && dirty == {} && excused == {} && stuck == {}
    {
      this.journal, this.taint, this.frames := journal, taint, [];
      this.dirty, this.excused, this.stuck := {}, {}, {};
    }

    ghost predicate Valid()
      reads this, journal
    {
      journal.Valid()
    }

    ghost function FileStatus(id: InstanceId): Option<EntryFile>
      reads journal
    {
      if id !in journal.files then None
      else if ReadEntry(journal.files[id]).Ok? then Some(EntryFile.Readable(ReadEntry(journal.files[id]).entry))
      else Some(EntryFile.Unreadable)
    }

    /** The instance `id` with task `t` on this host. */
    ghost function CellOf(id: InstanceId, t: Task): Cell
      reads this, journal, taint
    {
      Cell(t, FileStatus(id), id in dirty, !taint.file.Absent?, id in excused)
    }

    ghost predicate Shielded(id: InstanceId)
      reads this, taint
    {
      !taint.file.Absent? || id in excused
    }

    /** Nothing about any other instance changed, and no protection was taken away. */
    twostate predicate OnlyAffects(id: InstanceId)
      reads this, journal, taint
    {
      && journal.files - {id} == old(journal.files) - {id}
      && dirty - {id} == old(dirty) - {id}
      && excused - {id} == old(excused) - {id}
      && old(excused) <= excused
      && stuck - {id} == old(stuck) - {id} && old(stuck) <= stuck
      && (!old(taint.file).Absent? ==> taint.file == old(taint.file))
    }
  }

  /** With working IO nobody is excused and no entry gets stuck. */
  twostate predicate IoKept(host: Host, world: World)
    reads host
  {
    && (world.markIo ==> host.excused == old(host.excused))
    && (world.removeIo ==> host.stuck == old(host.stuck))
  }

  function FrameOf(id: InstanceId, effect: Effect): seq<Frame> {
    match effect
    case EmitStatus(state, reason) => [Status(id, state, reason)]
    case MarkTainted(_) => [TaintReport(true)]
    case _ => []
  }

  function FramesOf(id: InstanceId, effects: seq<Effect>): seq<Frame> {
    if effects == [] then [] else FrameOf(id, effects[0]) + FramesOf(id, effects[1..])
  }

  lemma {:induction false} FramesAppend(id: InstanceId, a: seq<Effect>, b: seq<Effect>)
    ensures FramesOf(id, a + b) == FramesOf(id, a) + FramesOf(id, b)
  {
    if a == [] {
      assert a + b == b;
    } else {
      assert (a + b)[1..] == a[1..] + b;
      FramesAppend(id, a[1..], b);
    }
  }

  lemma OneFrame(id: InstanceId, effects: seq<Effect>)
    requires |effects| <= 1
    ensures FramesOf(id, effects) == if effects == [] then [] else FrameOf(id, effects[0])
  {
    if effects != [] {
      assert effects[1..] == [];
      assert FrameOf(id, effects[0]) + [] == FrameOf(id, effects[0]);
    }
  }

  /** The states that the status frames announce, in order. */
  function Told(frames: seq<Frame>): seq<InstanceState> {
    if frames == [] then []
    else (if frames[0].Status? then [frames[0].state] else []) + Told(frames[1..])
  }

  /** The master is told what was done: every status effect as a status frame of that instance, in order,
      with its state and its reason, and a quarantine as a taint report; nothing else, and no all-clear. */
  lemma {:induction false} FramesTell(id: InstanceId, effects: seq<Effect>)
    ensures Told(FramesOf(id, effects)) == Statuses(effects)
    ensures forall f :: f in FramesOf(id, effects) <==>
                          || (f.Status? && f.id == id && EmitStatus(f.state, f.reason) in effects)
                          || (f == TaintReport(true) && Taints(effects))
  {
    if effects != [] {
      var first, later := effects[0], effects[1..];
      FramesTell(id, later);
      assert effects == [first] + later;
      var frames := FramesOf(id, later);
      if first.EmitStatus? {
        assert ([Status(id, first.state, first.reason)] + frames)[1..] == frames;
      } else if first.MarkTainted? {
        assert ([TaintReport(true)] + frames)[1..] == frames;
      } else {
        assert FramesOf(id, effects) == frames;
      }
      TaintsAppend([first], later);
      assert Taints([first]) <==> first.MarkTainted? by {
        assert [first][0] == first;
      }
    }
  }

  /** One more micro-step at the end of a run, with the frame it queues. */
  lemma Extend(id: InstanceId, c: Cell, ms: seq<Micro>, m: Micro)
    requires Legal(c, ms) && Enabled(RunCell(c, ms), m)
    ensures Legal(c, ms + [m]) && RunCell(c, ms + [m]) == After(RunCell(c, ms), m)
    ensures Trace(c, ms + [m]) == Trace(c, ms) + Completed(RunCell(c, ms), m)
    ensures FramesOf(id, Trace(c, ms + [m])) ==
            FramesOf(id, Trace(c, ms)) + (if Completed(RunCell(c, ms), m) == [] then []
                                          else FrameOf(id, Completed(RunCell(c, ms), m)[0]))
    ensures RemovalsWork(ms) && (m.DropEntry? ==> m.ok) ==> RemovalsWork(ms + [m])
  {
    Snoc(c, ms, m);
    FramesAppend(id, Trace(c, ms), Completed(RunCell(c, ms), m));
    OneFrame(id, Completed(RunCell(c, ms), m));
  }

  /** The run `ms` took the cell of `id` from `c` to task `t` on this host, and queued its frames. */
  ghost predicate Follows(host: Host, id: InstanceId, c: Cell, ms: seq<Micro>, t: Task, before: seq<Frame>)
    reads host, host.journal, host.taint
  {
    && Legal(c, ms)
    && RunCell(c, ms) == host.CellOf(id, t)
    && (id !in host.stuck ==> RemovalsWork(ms))
    && host.frames == before + FramesOf(id, Trace(c, ms))
  }

  /** The entry of the instance is on disk, and reads back as it was made. */
  ghost predicate HoldsEntry(host: Host, id: InstanceId, entry: JournalEntry)
    reads host, host.journal
  {
    id in host.journal.files && ReadEntry(host.journal.files[id]) == Ok(entry)
  }

  // ----- Performing one effect -----

  method SendStatus(host: Host, id: InstanceId, state: InstanceState, reason: Option<Reason>,
                    ghost c: Cell, ghost ms: seq<Micro>, ghost t: Task, ghost before: seq<Frame>)
    returns (ghost ms': seq<Micro>)
    requires Follows(host, id, c, ms, t, before) && t.todo != [] && t.todo[0] == EmitStatus(state, reason)
    modifies host`frames
    ensures Follows(host, id, c, ms', t.(todo := t.todo[1..]), before)
    ensures ms' == ms + [Emit]
  {
    hide Legal, RunCell, Trace, FramesOf, RemovalsWork;
    Extend(id, c, ms, Emit);
    ms' := ms + [Emit];
    host.frames := host.frames + [Status(id, state, reason)];
  }

  method PersistJournal(host: Host, id: InstanceId, entry: JournalEntry, queue: seq<Event>, io: bool,
                        ghost c: Cell, ghost ms: seq<Micro>, ghost t: Task, ghost before: seq<Frame>)
    returns (queue': seq<Event>, ghost ms': seq<Micro>)
    requires Follows(host, id, c, ms, t, before) && host.Valid()
    requires t.todo != [] && t.todo[0].WriteJournal? && !t.running && t.queue == queue
    requires entry.version == JOURNAL_VERSION && entry.instanceId == id && t.own == entry
    modifies host.journal
    ensures host.Valid() && Follows(host, id, c, ms', t.(todo := t.todo[1..], queue := queue'), before)
    ensures host.OnlyAffects(id)
    ensures ms' == ms + [PersistEntry(io)]
    ensures io ==> HoldsEntry(host, id, entry)
  {
    Extend(id, c, ms, PersistEntry(io));
    ms' := ms + [PersistEntry(io)];
    var ok := host.journal.Write(entry, io);
    queue' := queue + [if ok then JournalWritten else JournalWriteFailed("journal write failed")];
  }

  method RemoveFromJournal(host: Host, id: InstanceId, io: bool,
                           ghost c: Cell, ghost ms: seq<Micro>, ghost t: Task, ghost before: seq<Frame>)
    returns (ghost ms': seq<Micro>)
    requires Follows(host, id, c, ms, t, before) && host.Valid()
    requires t.todo != [] && t.todo[0].RemoveJournal?
    modifies host.journal, host`stuck
    ensures host.Valid() && Follows(host, id, c, ms', t.(todo := t.todo[1..]), before)
    ensures host.OnlyAffects(id) && (io ==> host.stuck == old(host.stuck))
    ensures ms' == ms + [DropEntry(io || id !in old(host.journal.files))]
  {
    var ok := host.journal.Remove(id, io);
    if !ok {
      host.stuck := host.stuck + {id};
    }
    Extend(id, c, ms, DropEntry(ok));
    ms' := ms + [DropEntry(ok)];
  }

  method MarkHost(host: Host, id: InstanceId, why: Reason, io: bool,
                  ghost c: Cell, ghost ms: seq<Micro>, ghost t: Task, ghost before: seq<Frame>)
    returns (ghost ms': seq<Micro>)
    requires Follows(host, id, c, ms, t, before) && t.todo != [] && t.todo[0] == MarkTainted(why)
    modifies host`frames, host`excused, host.taint
    ensures Follows(host, id, c, ms', t.(todo := t.todo[1..]), before)
    ensures host.OnlyAffects(id) && (io ==> host.excused == old(host.excused))
    ensures ms' == ms + [Quarantine(io || !old(host.taint.file).Absent?)]
    ensures old(host.taint.file).Absent? && io ==> host.taint.file == Written(TaintRecord(why, id))
  {
    var ok := host.taint.Mark(TaintRecord(why, id), io);
    if !ok {
      host.excused := host.excused + {id};
    }
    Extend(id, c, ms, Quarantine(ok));
    ms' := ms + [Quarantine(ok)];
    host.frames := host.frames + [TaintReport(true)];
  }

  /** Let the process run while `aborts` operator stops are drained to the front of the queue. */
  method DrainAborts(host: Host, id: InstanceId, queue: seq<Event>, aborts: nat,
                     ghost c: Cell, ghost ms: seq<Micro>, ghost t: Task, ghost before: seq<Frame>)
    returns (queue': seq<Event>, ghost ms': seq<Micro>)
    requires Follows(host, id, c, ms, t, before) && t.running && t.queue == queue
    ensures Follows(host, id, c, ms', t.(queue := queue'), before)
    ensures queue' == Aborts(aborts) + queue && ms' == ms + Stops(aborts)
  {
    queue', ms' := queue, ms;
    var drained := 0;
    while drained < aborts
      invariant drained <= aborts && Follows(host, id, c, ms', t.(queue := queue'), before)
      invariant queue' == Aborts(drained) + queue && ms' == ms + Stops(drained)
    {
      Extend(id, c, ms', OperatorStop);
      ms' := ms' + [OperatorStop];
      Associative(ms, Stops(drained), [OperatorStop]);
      queue' := [StopRequested(OperatorAbort)] + queue';
      drained := drained + 1;
      Associative([StopRequested(OperatorAbort)], Aborts(drained - 1), queue);
    }
  }

  /** From the start of an inject on, the host may carry the fault. */
  method StartProcess(host: Host, id: InstanceId, command: PluginCommand,
                      ghost c: Cell, ghost ms: seq<Micro>, ghost t: Task, ghost before: seq<Frame>)
    returns (ghost ms': seq<Micro>)
    requires Follows(host, id, c, ms, t, before)
    requires t.todo != [] && t.todo[0].Invoke? && t.todo[0].command == command && !t.running
    modifies host`dirty
    ensures Follows(host, id, c, ms', t.(running := true), before)
    ensures host.OnlyAffects(id)
    ensures ms' == ms + [Spawn]
  {
    Extend(id, c, ms, Spawn);
    ms' := ms + [Spawn];
    if command.Inject? {
      host.dirty := host.dirty + {id};
    }
  }

  /** A cleanup that exits 0 takes the fault away; an inject that asserts that it did nothing leaves the
      host as it was before. */
  method ReapProcess(host: Host, id: InstanceId, command: PluginCommand, queue: seq<Event>, outcome: InvocationOutcome,
                     ghost c: Cell, ghost ms: seq<Micro>, ghost t: Task, ghost before: seq<Frame>)
    returns (queue': seq<Event>, ghost ms': seq<Micro>)
    requires Follows(host, id, c, ms, t, before)
    requires t.todo != [] && t.todo[0].Invoke? && t.todo[0].command == command && t.running && t.queue == queue
    modifies host`dirty
    ensures Follows(host, id, c, ms', t.(todo := t.todo[1..], queue := queue', running := false), before)
    ensures host.OnlyAffects(id)
    ensures queue' == queue + [InvocationEvent(command, outcome)] && ms' == ms + [Reap(outcome)]
  {
    Extend(id, c, ms, Reap(outcome));
    ms' := ms + [Reap(outcome)];
    queue' := queue + [InvocationEvent(command, outcome)];
    if (command.Cleanup? && outcome == Exited(Success))
       || (command.Inject? && outcome == Exited(InjectFailed) && t.pristine)
    {
      host.dirty := host.dirty - {id};
    }
  }

  method RunProcess(host: Host, id: InstanceId, command: PluginCommand, queue: seq<Event>,
                    aborts: nat, outcome: InvocationOutcome,
                    ghost c: Cell, ghost ms: seq<Micro>, ghost t: Task, ghost before: seq<Frame>)
    returns (queue': seq<Event>, ghost ms': seq<Micro>)
    requires Follows(host, id, c, ms, t, before)
    requires t.todo != [] && t.todo[0].Invoke? && t.todo[0].command == command
    requires !t.running && t.queue == queue
    modifies host`dirty
    ensures Follows(host, id, c, ms', t.(todo := t.todo[1..], queue := queue'), before)
    ensures host.OnlyAffects(id)
    ensures queue' == Aborts(aborts) + queue + [InvocationEvent(command, outcome)]
    ensures ms' == ms + GateSteps(Ran(aborts, outcome))
  {
    hide Follows, GateSteps, Stops;
    ms' := StartProcess(host, id, command, c, ms, t, before);
    ghost var running := t.(running := true);
    queue', ms' := DrainAborts(host, id, queue, aborts, c, ms', running, before);
    queue', ms' := ReapProcess(host, id, command, queue', outcome, c, ms', running.(queue := queue'), before);
    RanSteps(ms, aborts, outcome);
  }

  /** Run one digest-gated invocation: the micro-steps and the queue are what the gate dictates. */
  method InvokeGated(host: Host, id: InstanceId, command: PluginCommand, queue: seq<Event>, gate: Gate,
                     ghost c: Cell, ghost ms: seq<Micro>, ghost t: Task, ghost before: seq<Frame>)
    returns (queue': seq<Event>, ghost ms': seq<Micro>)
    requires Follows(host, id, c, ms, t, before)
    requires t.todo != [] && t.todo[0].Invoke? && t.todo[0].command == command
    requires !t.running && t.queue == queue
    modifies host`dirty
    ensures Follows(host, id, c, ms', t.(todo := t.todo[1..], queue := queue'), before)
    ensures host.OnlyAffects(id)
    ensures ms' == ms + GateSteps(gate)
    ensures queue' == Aborts(if gate.Ran? then gate.aborts else 0) + queue + [GateAnswer(command, gate)]
  {
    match gate {
      case Rejected(why) =>
        Extend(id, c, ms, Refuse(why));
        ms' := ms + [Refuse(why)];
        queue' := queue + [InvokeRejected(command, why)];
      case GateFailed(why) =>
        Extend(id, c, ms, Unverified(why));
        ms' := ms + [Unverified(why)];
        queue' := queue + [InvocationFailed(command, why)];
      case Ran(aborts, outcome) =>
        queue', ms' := RunProcess(host, id, command, queue, aborts, outcome, c, ms, t, before);
    }
  }

  /** Perform one machine effect, queueing any result event. `k` counts the invocations. */
  method ApplyEffect(host: Host, id: InstanceId, entry: JournalEntry, effect: Effect, queue: seq<Event>, k: nat,
                     world: World, ghost start: nat, ghost c: Cell, ghost ms: seq<Micro>, ghost t: Task,
                     ghost before: seq<Frame>)
    returns (queue': seq<Event>, k': nat, ghost ms': seq<Micro>)
    requires Follows(host, id, c, ms, t, before) && host.Valid()
    requires t.todo != [] && t.todo[0] == effect && !t.running && t.queue == queue
    requires entry.version == JOURNAL_VERSION && entry.instanceId == id && t.own == entry
    requires Driven(world, start, ms, k)
    modifies host, host.journal, host.taint
    ensures Follows(host, id, c, ms', t.(todo := t.todo[1..], queue := queue'), before) && host.Valid()
    ensures host.OnlyAffects(id) && IoKept(host, world)
    ensures Driven(world, start, ms', k')
    ensures effect.WriteJournal? && world.writeIo ==> HoldsEntry(host, id, entry)
    ensures effect.MarkTainted? && world.markIo && old(host.taint.file).Absent? ==>
              host.taint.file == Written(TaintRecord(effect.why, id))
  {
    hide Follows, GivenFrom, Asked;
    queue', k' := queue, k;
    match effect {
      case EmitStatus(state, reason) =>
        ms' := SendStatus(host, id, state, reason, c, ms, t, before);
        DrivenOne(world, start, ms, k, Emit);
      case Invoke(command, _) =>
        queue', ms' := InvokeGated(host, id, command, queue, world.invocation(k), c, ms, t, before);
        GateIsGiven(world, start, ms, k);
        k' := k + 1;
      case WriteJournal =>
        queue', ms' := PersistJournal(host, id, entry, queue, world.writeIo, c, ms, t, before);
        DrivenOne(world, start, ms, k, PersistEntry(world.writeIo));
      case RemoveJournal =>
        ghost var dropped := world.removeIo || id !in host.journal.files;
        ms' := RemoveFromJournal(host, id, world.removeIo, c, ms, t, before);
        DrivenOne(world, start, ms, k, DropEntry(dropped));
      case MarkTainted(why) =>
        ghost var marked := world.markIo || !host.taint.file.Absent?;
        ms' := MarkHost(host, id, why, world.markIo, c, ms, t, before);
        DrivenOne(world, start, ms, k, Quarantine(marked));
    }
  }

  method ApplyEffects(host: Host, id: InstanceId, entry: JournalEntry, effects: seq<Effect>, queue: seq<Event>, k: nat,
                      world: World, ghost start: nat, ghost c: Cell, ghost ms: seq<Micro>, ghost t: Task,
                      ghost before: seq<Frame>)
    returns (queue': seq<Event>, k': nat, ghost ms': seq<Micro>)
    requires Follows(host, id, c, ms, t, before) && host.Valid()
    requires t.todo == effects && !t.running && t.queue == queue
    requires entry.version == JOURNAL_VERSION && entry.instanceId == id && t.own == entry
    requires Driven(world, start, ms, k)
    modifies host, host.journal, host.taint
    ensures Follows(host, id, c, ms', t.(todo := [], queue := queue'), before) && host.Valid()
    ensures host.OnlyAffects(id) && IoKept(host, world)
    ensures effects == [] ==> queue' == queue
    ensures Driven(world, start, ms', k')
  {
    queue', k', ms' := queue, k, ms;
    for n := 0 to |effects|
      invariant Follows(host, id, c, ms', t.(todo := effects[n..], queue := queue'), before) && host.Valid()
      invariant effects == [] ==> queue' == queue
      invariant Driven(world, start, ms', k')
      invariant host.OnlyAffects(id) && IoKept(host, world)
    {
      queue', k', ms' := ApplyEffect(host, id, entry, effects[n], queue', k', world,
                                     start, c, ms', t.(todo := effects[n..], queue := queue'), before);
    }
  }

  // ----- The live shell -----

  /** The next event of the loop. The wedged branch is there, and is never taken. */
  method NextEvent(state: State, queue: seq<Event>, stop: StopCause, ghost pristine: bool, ghost own: JournalEntry)
    returns (event: Event, queue': seq<Event>, ghost m: Micro)
    requires Framed(Task(false, pristine, state, queue, [], false, own))
    requires queue != [] || !state.IsTerminal()
    ensures queue != [] ==> queue == [event] + queue' && m.Take?
    ensures queue == [] ==> queue' == [] && state.Active? && event == StopRequested(stop) && m == Waited(stop)
  {
    FramedIsNotWedged(Task(false, pristine, state, queue, [], false, own));
    if queue != [] {
      event, queue', m := queue[0], queue[1..], Take;
    } else if state.Active? {
      event, queue', m := StopRequested(stop), [], Waited(stop);
    } else {
      event, queue', m := StopRequested(Deadman), [], Fallback;
    }
  }

  /** The machine steps on the event just picked. */
  lemma Turn(id: InstanceId, c: Cell, ms: seq<Micro>, t: Task, event: Event, queue: seq<Event>, m: Micro)
    requires Legal(c, ms) && RunCell(c, ms).task == t
    requires !t.settingUp && t.todo == []
    requires m.Take? || (m.Waited? && Resting(t) && t.state.Active? && event == StopRequested(m.cause) && queue == [])
    requires m.Take? ==> t.queue == [event] + queue
    ensures var (next, effects) := Step(t.state, event);
            && Legal(c, ms + [m])
            && RunCell(c, ms + [m]) == RunCell(c, ms).(task := t.(state := next, queue := queue, todo := effects))
            && FramesOf(id, Trace(c, ms + [m])) == FramesOf(id, Trace(c, ms))
            && (effects != [] ==> Measure(next) < Measure(t.state))
            && (effects == [] ==> Measure(next) <= Measure(t.state) && |queue| < |t.queue|)
  {
    if m.Take? {
      assert t.queue[1..] == queue;
    }
    Extend(id, c, ms, m);
    StepSpendsMeasure(t.state, event);
  }

  lemma FramedNow(host: Host, id: InstanceId, c: Cell, ms: seq<Micro>, t: Task, before: seq<Frame>)
    requires CellInv(c) && Follows(host, id, c, ms, t, before)
    ensures Framed(t)
  {
    RunKeeps(c, ms);
  }

  lemma TurnFollows(host: Host, id: InstanceId, c: Cell, ms: seq<Micro>, t: Task, event: Event, queue: seq<Event>,
                    m: Micro, before: seq<Frame>)
    requires Follows(host, id, c, ms, t, before) && !t.settingUp && t.todo == []
    requires m.Take? || (m.Waited? && Resting(t) && t.state.Active? && event == StopRequested(m.cause) && queue == [])
    requires m.Take? ==> t.queue == [event] + queue
    ensures var (next, effects) := Step(t.state, event);
            && Follows(host, id, c, ms + [m], t.(state := next, queue := queue, todo := effects), before)
            && (effects != [] ==> Measure(next) < Measure(t.state))
            && (effects == [] ==> Measure(next) <= Measure(t.state) && |queue| < |t.queue|)
  {
    Turn(id, c, ms, t, event, queue, m);
  }

  /** One turn of the loop: pick an event, step the machine, perform the effects. */
  method OneTurn(host: Host, id: InstanceId, entry: JournalEntry, state: State, queue: seq<Event>, k: nat,
                 world: World, ghost start: nat, ghost c: Cell, ghost ms: seq<Micro>, ghost t: Task,
                 ghost before: seq<Frame>)
    returns (state': State, queue': seq<Event>, k': nat, ghost ms': seq<Micro>)
    requires host.Valid() && entry.version == JOURNAL_VERSION && entry.instanceId == id
    requires CellInv(c) && Follows(host, id, c, ms, t, before)
    requires t == Task(false, t.pristine, state, queue, [], false, entry)
    requires queue != [] || !state.IsTerminal()
    requires Driven(world, start, ms, k)
    modifies host, host.journal, host.taint
    ensures host.Valid() && Follows(host, id, c, ms', t.(state := state', queue := queue'), before)
    ensures Measure(state') < Measure(state)
            || (Measure(state') == Measure(state) && |queue'| < |queue|)
    ensures host.OnlyAffects(id) && IoKept(host, world)
    ensures Driven(world, start, ms', k')
  {
    hide CellInv, Framed, GivenFrom, Asked, Follows;
    FramedNow(host, id, c, ms, t, before);
    var event, rest, m := NextEvent(state, queue, world.stop, t.pristine, entry);
    TurnFollows(host, id, c, ms, t, event, rest, m, before);
    var (next, effects) := Step(state, event);
    ghost var u := t.(state := next, queue := rest, todo := effects);
    state' := next;
    DrivenOne(world, start, ms, k, m);
    queue', k', ms' := ApplyEffects(host, id, entry, effects, rest, k, world, start, c, ms + [m], u, before);
  }

  lemma EntryIsThere(host: Host, id: InstanceId, c: Cell, ms: seq<Micro>, t: Task, before: seq<Frame>)
    requires CellInv(c) && OwnOnDisk(c) && Follows(host, id, c, ms, t, before) && Journaled(t)
    ensures HoldsEntry(host, id, t.own)
  {
    RunKeepsOwn(c, ms);
  }

  /** The event-queue loop of a live instance, from any point at which the invariant holds. While it must be
      journaled, so whenever its fault can be on the host, its own entry is on disk, whole. */
  method EventLoop(host: Host, id: InstanceId, entry: JournalEntry, state: State, queue: seq<Event>, k: nat,
                   world: World, ghost c: Cell)
    returns (last: State, ghost ms: seq<Micro>)
    requires host.Valid() && entry.version == JOURNAL_VERSION && entry.instanceId == id
    requires c == host.CellOf(id, Task(false, c.task.pristine, state, queue, [], false, entry)) && CellInv(c)
    requires OwnOnDisk(c)
    modifies host, host.journal, host.taint
    ensures host.Valid() && last.IsTerminal()
    ensures Follows(host, id, c, ms, Task(false, c.task.pristine, last, [], [], false, entry), old(host.frames))
    ensures host.OnlyAffects(id) && IoKept(host, world)
    ensures GivenFrom(ms, world, k)
  {
    ms, last := [], state;
    var queue', k' := queue, k;
    ghost var before, pristine := host.frames, c.task.pristine;
    hide CellInv, Framed, OwnOnDisk, HoldsEntry, Journaled;
    if Journaled(c.task) {
      EntryIsThere(host, id, c, ms, c.task, before);
    }
    while queue' != [] || !last.IsTerminal()
      invariant host.Valid()
      invariant Follows(host, id, c, ms, Task(false, pristine, last, queue', [], false, entry), before)
      invariant host.OnlyAffects(id) && IoKept(host, world)
      invariant Driven(world, k, ms, k')
      invariant Journaled(Task(false, pristine, last, queue', [], false, entry)) ==> HoldsEntry(host, id, entry)
      decreases Measure(last), |queue'|
    {
      ghost var t := Task(false, pristine, last, queue', [], false, entry);
      last, queue', k', ms := OneTurn(host, id, entry, last, queue', k', world, k, c, ms, t, before);
      ghost var u := Task(false, pristine, last, queue', [], false, entry);
      if Journaled(u) {
        EntryIsThere(host, id, c, ms, u, before);
      }
    }
  }
}
