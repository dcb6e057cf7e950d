/** A live instance as a whole, from its RunFault to its terminal state. */
module Drivers {
  import opened Lifecycle
  import opened Sequences
  import opened Machine
  import opened MachineRuns
  import opened Task
  import opened TaskRuns
  import opened Worlds
  import opened Scripts
  import opened Endings
  import opened HostState
  import opened Shell
  import opened AgentSystem
  import opened Params
  import opened Validation

  datatype RunFaultFrame = RunFaultFrame(
    instanceId: InstanceId,
    pluginName: string,
    pluginVersion: string,
    pluginDigest: string,
    params: Option<Args>,
    durationSecs: nat,
    graceSecs: nat)

  function DeadlineUnix(startMs: nat, run: RunFaultFrame): nat {
    startMs / 1000 + run.durationSecs + run.graceSecs
  }

  function EntryFor(run: RunFaultFrame, startMs: nat): JournalEntry {
    JournalEntry(JOURNAL_VERSION, run.instanceId, run.pluginName, run.pluginVersion, run.pluginDigest,
                 if run.params.Some? then run.params.value else [], startMs, run.durationSecs, run.graceSecs,
                 DeadlineUnix(startMs, run))
  }

  /** What the setup checks make of a RunFault. */
  function VerdictOn(run: RunFaultFrame, tainted: bool, disk: Catalog): SetupResult {
    SetupVerdict(tainted, disk, run.pluginName, run.pluginVersion, run.pluginDigest, run.params, run.durationSecs)
  }

  /** The checks pass, and the task that runs them comes back. */
  predicate Passes(run: RunFaultFrame, tainted: bool, disk: Catalog, world: World) {
    VerdictOn(run, tainted, disk).Ready? && world.setupJoins
  }

  /** The script of a live instance, with the status that announces it. */
  function LiveScript(passed: bool, world: World): Story {
    Then([EmitStatus(InstanceState.Pending, None)], Script(passed, world))
  }

  /** The setup checks, one after the other, the quarantine first. */
  method Setup(host: Host, run: RunFaultFrame, disk: Catalog) returns (result: SetupResult)
    ensures result == VerdictOn(run, !host.taint.file.Absent?, disk)
  {
    var record := host.taint.Current();
    if record.Some? {
      return Refusal(HostIsTainted);
    }
    if !WellFormedDigest(run.pluginDigest) {
      return Refusal(BadDigest);
    }
    if !WellFormedName(run.pluginName) {
      return Refusal(BadPluginName);
    }
    if !WellFormedVersion(run.pluginVersion) {
      return Refusal(BadPluginVersion);
    }
    var key := (run.pluginName, run.pluginVersion);
    if key !in disk {
      return Refusal(NotInCatalog);
    }
    if disk[key].digest != run.pluginDigest {
      return Refusal(DigestMismatch);
    }
    if run.params.None? {
      return Refusal(NotAnObject);
    }
    var verdict := ValidateParams(disk[key].schema, run.params.value);
    if verdict.Invalid? {
      return Refusal(BadParams(verdict.error));
    }
    if run.durationSecs > disk[key].maxDurationSecs {
      return Refusal(OverMaxDuration);
    }
    result := Ready;
  }

  /** Setup lets a RunFault pass exactly on a clean host that has that plugin with that very digest, for
      conforming parameters and a duration within the plugin's maximum. */
  lemma PassesIff(run: RunFaultFrame, tainted: bool, disk: Catalog)
    requires Loaded(disk) && (run.params.Some? ==> DistinctKeys(run.params.value))
    ensures VerdictOn(run, tainted, disk).Ready? <==>
            && !tainted
            && (run.pluginName, run.pluginVersion) in disk
            && var entry := disk[(run.pluginName, run.pluginVersion)];
               && run.pluginDigest == entry.digest
               && run.params.Some? && Conforms(entry.schema, run.params.value)
               && run.durationSecs <= entry.maxDurationSecs
  {
    if (run.pluginName, run.pluginVersion) in disk && run.params.Some? {
      ValidIffConforms(disk[(run.pluginName, run.pluginVersion)].schema, run.params.value);
    }
  }

  /** Announce the instance and run its setup checks. */
  method Begin(host: Host, run: RunFaultFrame, disk: Catalog, world: World, ghost c: Cell)
    returns (queue: seq<Event>, ghost ms: seq<Micro>)
    requires host.Valid() && CellInv(c) && c == host.CellOf(run.instanceId, NewTask(c.task.pristine, c.task.own))
    modifies host`frames
    ensures Follows(host, run.instanceId, c, ms,
                    Task(false, c.task.pristine, State.Pending, queue, [], false, c.task.own), old(host.frames))
    ensures CellInv(RunCell(c, ms)) && Driven(world, 0, ms, 0)
    ensures queue == [if Passes(run, c.tainted, disk, world) then SetupOk else SetupFailed("setup failed")]
    ensures Trace(c, ms) == [EmitStatus(InstanceState.Pending, None)]
  {
    ghost var t := c.task;
    ms := SendStatus(host, run.instanceId, InstanceState.Pending, None, c, [], t, host.frames);
    var result := Setup(host, run, disk);
    var passed := result.Ready? && world.setupJoins;
    ghost var m := if passed then SetupPassed else SetupRefused("setup failed");
    queue := [if passed then SetupOk else SetupFailed("setup failed")];
    SetUp(run.instanceId, c, ms, m, world);
    ms := ms + [m];
  }

  /** The setup's own micro-step. */
  lemma SetUp(id: InstanceId, c: Cell, ms: seq<Micro>, m: Micro, world: World)
    requires CellInv(c) && Legal(c, ms) && ms == [] + [Emit] && Enabled(RunCell(c, ms), m)
    requires m.SetupRefused? || (m.SetupPassed? && world.setupJoins)
    ensures Legal(c, ms + [m]) && RunCell(c, ms + [m]) == After(RunCell(c, ms), m)
    ensures FramesOf(id, Trace(c, ms + [m])) == FramesOf(id, Trace(c, ms))
    ensures RemovalsWork(ms + [m])
    ensures CellInv(RunCell(c, ms + [m])) && Driven(world, 0, ms + [m], 0)
    ensures Trace(c, ms + [m]) == c.task.todo[..1]
  {
    hide CellInv;
    Extend(id, c, [], Emit);
    Extend(id, c, ms, m);
    RunKeeps(c, ms + [m]);
    DrivenOne(world, 0, [], 0, Emit);
    DrivenOne(world, 0, ms, 0, m);
  }

  /** The task of an instance that is over. */
  function Ended(t: Task, last: State): Task {
    Task(false, t.pristine, last, [], [], false, t.own)
  }

  /** An instance from its first status to its last, on a host on which any fault of an earlier life is
      shielded: what RunInstance does once that is settled. */
  method DriveInstance(host: Host, run: RunFaultFrame, startMs: nat, disk: Catalog, world: World, ghost c: Cell)
    returns (last: State, ghost ms: seq<Micro>)
    requires host.Valid() && CellInv(c)
    requires c == host.CellOf(run.instanceId, NewTask(run.instanceId !in host.dirty, EntryFor(run, startMs)))
    modifies host, host.journal, host.taint
    ensures host.Valid() && last.IsTerminal() && GivenFrom(ms, world, 0)
    ensures Follows(host, run.instanceId, c, ms, Ended(c.task, last), old(host.frames))
    ensures host.OnlyAffects(run.instanceId) && IoKept(host, world)
    ensures Story(Trace(c, ms), last) == LiveScript(Passes(run, c.tainted, disk, world), world)
  {
    var id := run.instanceId;
    var entry := EntryFor(run, startMs);
    ghost var before := host.frames;
    ghost var first, later;
    var queue;
    queue, first := Begin(host, run, disk, world, c);
    ghost var middle := RunCell(c, first);
    ghost var between := host.frames;
    last, later := EventLoop(host, id, entry, State.Pending, queue, 0, world, middle);
    ghost var t := Ended(c.task, last);
    ms := JoinRuns(host, id, c, first, later, t, before, between, world);
    LiveRunIsScript(middle, later, Passes(run, c.tainted, disk, world), world);
  }

  /** Nobody answers for a fault that was left on the host, unmarked, before this instance. */
  ghost function StartingCell(host: Host, run: RunFaultFrame, startMs: nat): Cell
    reads host, host.journal, host.taint
  {
    var c := host.CellOf(run.instanceId, NewTask(run.instanceId !in host.dirty, EntryFor(run, startMs)));
    c.(excused := c.excused || (c.dirty && !c.tainted))
  }

  /** A live instance, from its first status to its last. The whole call is a legal run of its cell;
      it ends terminal; DONE and ABORTED leave the host clean, anything left behind is quarantined,
      and the journal entry is gone if removals work. What it does and how it ends is its script's; a
      RunFault that the setup checks refuse ends ABORTED without any plugin command, and one that nothing
      disturbs ends DONE. An id whose earlier fault may still be on an untainted host is
      excused from the start, as in AgentSystem. */
  method RunInstance(host: Host, run: RunFaultFrame, startMs: nat, disk: Catalog, world: World)
    returns (last: State, ghost c: Cell, ghost ms: seq<Micro>)
    requires host.Valid()
    modifies host, host.journal, host.taint
    ensures host.Valid() && last.IsTerminal() && CellInv(c) && GivenFrom(ms, world, 0)
    ensures c == old(StartingCell(host, run, startMs))
    ensures Follows(host, run.instanceId, c, ms, Ended(c.task, last), old(host.frames))
    ensures host.OnlyAffects(run.instanceId) && (world.removeIo ==> host.stuck == old(host.stuck))
    ensures world.markIo && (c.excused ==> run.instanceId in old(host.excused)) ==> host.excused == old(host.excused)
    ensures run.instanceId in host.dirty ==> host.Shielded(run.instanceId)
    ensures run.instanceId !in old(host.dirty) && (last.Done? || last.Aborted?) ==> run.instanceId !in host.dirty
    ensures run.instanceId !in old(host.journal.files) && run.instanceId !in host.stuck ==>
              run.instanceId !in host.journal.files
    ensures Story(Trace(c, ms), last) == LiveScript(Passes(run, c.tainted, disk, world), world)
    ensures !VerdictOn(run, c.tainted, disk).Ready? ==> last.Aborted? && NoCommands(c, ms)
    ensures VerdictOn(run, c.tainted, disk).Ready? && AllGoesWell(world) ==> last.Done?
  {
    hide NoCommands, VerdictOn, GivenFrom, Script, AllGoesWell;
    c := StartingCell(host, run, startMs);
    host.excused := if c.excused then host.excused + {run.instanceId} else host.excused;
    NewCellKeeps(c);
    ghost var before := host.frames;
    last, ms := DriveInstance(host, run, startMs, disk, world, c);
    Conclude(host, run.instanceId, c, ms, Ended(c.task, last), before);
    if !VerdictOn(run, c.tainted, disk).Ready? {
      RefusedSetupAborts(c, ms, world);
    } else if AllGoesWell(world) {
      UndisturbedScript(world);
    }
  }

  /** Two runs end to end. */
  lemma JoinRuns(host: Host, id: InstanceId, c: Cell, first: seq<Micro>, later: seq<Micro>, t: Task,
                 before: seq<Frame>, between: seq<Frame>, world: World)
    returns (ms: seq<Micro>)
    requires Legal(c, first) && (id !in host.stuck ==> RemovalsWork(first))
    requires between == before + FramesOf(id, Trace(c, first))
    requires Follows(host, id, RunCell(c, first), later, t, between)
    requires Driven(world, 0, first, 0) && GivenFrom(later, world, 0)
    ensures Follows(host, id, c, ms, t, before) && GivenFrom(ms, world, 0)
    ensures Trace(c, ms) == Trace(c, first) + Trace(RunCell(c, first), later)
  {
    hide GivenOn, Asked, FramesOf, Trace, Legal, RunCell;
    ms := Chain(id, c, first, later);
    GivenAppend(first, later, world, 0, 0);
    Associative(before, FramesOf(id, Trace(c, first)), FramesOf(id, Trace(RunCell(c, first), later)));
  }

  lemma Chain(id: InstanceId, c: Cell, first: seq<Micro>, later: seq<Micro>) returns (ms: seq<Micro>)
    requires Legal(c, first) && Legal(RunCell(c, first), later)
    ensures ms == first + later && Legal(c, ms) && RunCell(c, ms) == RunCell(RunCell(c, first), later)
    ensures Trace(c, ms) == Trace(c, first) + Trace(RunCell(c, first), later)
    ensures FramesOf(id, Trace(c, ms)) == FramesOf(id, Trace(c, first)) + FramesOf(id, Trace(RunCell(c, first), later))
    ensures RemovalsWork(first) && RemovalsWork(later) ==> RemovalsWork(ms)
  {
    RunsAppend(c, first, later);
    FramesAppend(id, Trace(c, first), Trace(RunCell(c, first), later));
    ms := first + later;
  }

  lemma Conclude(host: Host, id: InstanceId, c: Cell, ms: seq<Micro>, t: Task, before: seq<Frame>)
    requires CellInv(c) && Follows(host, id, c, ms, t, before) && Finished(t) && t.pristine == c.task.pristine
    ensures id in host.dirty ==> host.Shielded(id)
    ensures c.task.pristine && (t.state.Done? || t.state.Aborted?) ==> id !in host.dirty
    ensures c.entry.None? && id !in host.stuck ==> id !in host.journal.files
  {
    RunKeeps(c, ms);
    if c.entry.None? && id !in host.stuck {
      RunDrops(c, ms);
    }
  }

  predicate NoCommands(c: Cell, ms: seq<Micro>)
    requires Legal(c, ms)
  {
    forall command :: Invocations(Trace(c, ms), command) == 0
  }

  /** A refused setup ends ABORTED at once: two statuses, and no plugin command. */
  lemma RefusedSetupAborts(c: Cell, ms: seq<Micro>, world: World)
    requires Legal(c, ms) && Story(Trace(c, ms), RunCell(c, ms).task.state) == LiveScript(false, world)
    ensures RunCell(c, ms).task.state.Aborted? && NoCommands(c, ms)
    ensures Trace(c, ms) == [EmitStatus(InstanceState.Pending, None),
                             EmitStatus(InstanceState.Aborted, Some(Plain("setup failed")))]
  {
    forall command
      ensures Invocations(Trace(c, ms), command) == 0
    {
      UnfoldInvocations(Trace(c, ms), command);
    }
  }

  // ----- The entry of a RunFault -----

  /** The RunFault that an entry was written for. */
  function RunOf(entry: JournalEntry): RunFaultFrame {
    RunFaultFrame(entry.instanceId, entry.pluginName, entry.pluginVersion, entry.pluginDigest, Some(entry.params),
                  entry.durationSecs, entry.graceSecs)
  }

  /** Nothing that recovery needs is lost on the way through the disk: the bytes written for a RunFault are
      read back as an entry with the whole frame in it, and with the second at which its dead-man fires. */
  lemma EntryHoldsTheRun(run: RunFaultFrame, startMs: nat)
    requires run.params.Some?
    ensures ReadEntry(Encode(EntryFor(run, startMs))).Ok?
    ensures var entry := ReadEntry(Encode(EntryFor(run, startMs))).entry;
            && RunOf(entry) == run && entry.startedMs == startMs
            && entry.deadlineUnix == startMs / 1000 + run.durationSecs + run.graceSecs
  {
    EntryRoundTrip(EntryFor(run, startMs));
  }
}
