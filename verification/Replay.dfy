/** Restart replay: every journaled instance is recovered, before the first session is opened. */
module Replay {
  import opened Lifecycle
  import opened Sequences
  import opened Ordering
  import opened Machine
  import opened MachineRuns
  import opened Task
  import opened TaskRuns
  import opened Worlds
  import opened Scripts
  import opened Endings
  import opened HostState
  import opened Shell
  import opened Agreement
  import opened AgentSystem
  import opened Drivers

  /** There is no stop channel during replay. */
  function WithoutAborts(gate: Gate): Gate {
    if gate.Ran? then gate.(aborts := 0) else gate
  }

  /** The world as replay sees it. */
  function Quiet(world: World): World {
    world.(invocation := (k: nat) => WithoutAborts(world.invocation(k)))
  }

  predicate NoWrites(effects: seq<Effect>) {
    forall k :: 0 <= k < |effects| ==> !effects[k].WriteJournal?
  }

  lemma RecoveryWritesNothing(c: Cell, ms: seq<Micro>)
    requires CellInv(c) && Legal(c, ms) && CannotInject(RunCell(c, ms).task)
    ensures NoWrites(RunCell(c, ms).task.todo)
  {
    RunKeeps(c, ms);
  }

  /** Drain the effect queue. */
  method DrainEffects(host: Host, id: InstanceId, effects: seq<Effect>, queue: seq<Event>, k: nat, world: World,
                      ghost c: Cell, ghost ms: seq<Micro>, ghost t: Task, ghost before: seq<Frame>)
    returns (queue': seq<Event>, k': nat, ghost ms': seq<Micro>)
    requires Follows(host, id, c, ms, t, before) && host.Valid()
    requires t.todo == effects && !t.running && t.queue == queue && NoWrites(effects) && Driven(Quiet(world), 0, ms, k)
    modifies host, host.journal, host.taint
    ensures Follows(host, id, c, ms', t.(todo := [], queue := queue'), before) && host.Valid()
    ensures host.OnlyAffects(id) && IoKept(host, world)
    ensures effects == [] ==> queue' == queue
    ensures Driven(Quiet(world), 0, ms', k')
  {
    queue', k', ms' := queue, k, ms;
    var left := effects;
    while left != []
      invariant Follows(host, id, c, ms', t.(todo := left, queue := queue'), before) && host.Valid()
      invariant host.OnlyAffects(id) && IoKept(host, world) && Driven(Quiet(world), 0, ms', k')
      invariant NoWrites(left) && |left| <= |effects| && (effects == [] ==> queue' == queue)
    {
      queue', k', ms' := DrainOne(host, id, left[0], queue', k', world, c, ms', t.(todo := left, queue := queue'),
                                  before);
      left := left[1..];
    }
  }

  method DrainOne(host: Host, id: InstanceId, effect: Effect, queue: seq<Event>, k: nat, world: World,
                  ghost c: Cell, ghost ms: seq<Micro>, ghost t: Task, ghost before: seq<Frame>)
    returns (queue': seq<Event>, k': nat, ghost ms': seq<Micro>)
    requires Follows(host, id, c, ms, t, before) && host.Valid()
    requires t.todo != [] && t.todo[0] == effect && !t.running && t.queue == queue && !effect.WriteJournal?
    requires Driven(Quiet(world), 0, ms, k)
    modifies host, host.journal, host.taint
    ensures Follows(host, id, c, ms', t.(todo := t.todo[1..], queue := queue'), before) && host.Valid()
    ensures host.OnlyAffects(id) && IoKept(host, world) && Driven(Quiet(world), 0, ms', k')
    ensures effect.MarkTainted? && world.markIo && old(host.taint.file).Absent? ==>
              host.taint.file == Written(TaintRecord(effect.why, id))
  {
    queue', k', ms' := queue, k, ms;
    match effect {
      case EmitStatus(state, reason) =>
        ms' := SendStatus(host, id, state, reason, c, ms, t, before);
        DrivenOne(Quiet(world), 0, ms, k, Emit);
      case Invoke(command, _) =>
        queue', ms' := InvokeGated(host, id, command, queue, WithoutAborts(world.invocation(k)), c, ms, t, before);
        GateIsGiven(Quiet(world), 0, ms, k);
        k' := k + 1;
      case RemoveJournal =>
        ghost var dropped := world.removeIo || id !in host.journal.files;
        ms' := RemoveFromJournal(host, id, world.removeIo, c, ms, t, before);
        DrivenOne(Quiet(world), 0, ms, k, DropEntry(dropped));
      case MarkTainted(why) =>
        ghost var marked := world.markIo || !host.taint.file.Absent?;
        ms' := MarkHost(host, id, why, world.markIo, c, ms, t, before);
        DrivenOne(Quiet(world), 0, ms, k, Quarantine(marked));
      case WriteJournal => // replay never writes journals
    }
  }

  /** Drain the effects, then step on the next event, if there is one. */
  method ReplayTurn(host: Host, id: InstanceId, ghost own: JournalEntry, state: State, effects: seq<Effect>,
                    queue: seq<Event>, k: nat, world: World, ghost c: Cell, ghost ms: seq<Micro>, ghost t: Task,
                    ghost before: seq<Frame>)
    returns (state': State, effects': seq<Effect>, queue': seq<Event>, k': nat, done: bool, ghost ms': seq<Micro>)
    requires host.Valid() && Follows(host, id, c, ms, t, before)
    requires t == Task(false, true, state, queue, effects, false, own) && CannotInject(t) && NoWrites(effects)
    requires Driven(Quiet(world), 0, ms, k)
    modifies host, host.journal, host.taint
    ensures host.Valid() && Follows(host, id, c, ms', Task(false, true, state', queue', effects', false, own), before)
    ensures state'.Recovering? || state'.IsTerminal()
    ensures done ==> effects' == [] && queue' == []
    ensures !done ==>
              || Measure(state') < Measure(state)
              || (Measure(state') == Measure(state) && effects' == [] && (effects != [] || |queue'| < |queue|))
    ensures host.OnlyAffects(id) && IoKept(host, world) && Driven(Quiet(world), 0, ms', k')
  {
    hide GivenFrom, Asked, FramesOf, Trace, Legal, RunCell;
    state', effects' := state, [];
    queue', k', ms' := DrainEffects(host, id, effects, queue, k, world, c, ms, t, before);
    done := queue' == [];
    if !done {
      ghost var u := t.(todo := [], queue := queue');
      var event, rest := queue'[0], queue'[1..];
      Turn(id, c, ms', u, event, rest, Take);
      var (next, more) := Step(state, event);
      DrivenOne(Quiet(world), 0, ms', k', Take);
      ms' := ms' + [Take];
      state', effects', queue' := next, more, rest;
    }
  }

  /** The state is terminal because a framed task with nothing left to do is not wedged. */
  lemma DoneIsTerminal(c: Cell, ms: seq<Micro>)
    requires CellInv(c) && Legal(c, ms)
    requires Resting(RunCell(c, ms).task) && CannotInject(RunCell(c, ms).task)
    ensures RunCell(c, ms).task.state.IsTerminal()
  {
    RunKeeps(c, ms);
    FramedIsNotWedged(RunCell(c, ms).task);
  }

  /** The effect-queue loop of one journaled instance. */
  method ReplayLoop(host: Host, id: InstanceId, target: Outcome, world: World, ghost own: JournalEntry, ghost c: Cell)
    returns (last: State, ghost ms: seq<Micro>)
    requires host.Valid() && c == host.CellOf(id, ReplayTask(target, own)) && CellInv(c)
    modifies host, host.journal, host.taint
    ensures host.Valid() && last.IsTerminal()
    ensures Follows(host, id, c, ms, Task(false, true, last, [], [], false, own), old(host.frames))
    ensures host.OnlyAffects(id) && IoKept(host, world) && GivenFrom(ms, Quiet(world), 0)
  {
    var (start, effects) := ReplayRecovery(target);
    last := start;
    var queue: seq<Event>, k: nat, done := [], 0, false;
    ms := [];
    ghost var before := host.frames;
    while !done
      invariant host.Valid() && Follows(host, id, c, ms, Task(false, true, last, queue, effects, false, own), before)
      invariant last.Recovering? || last.IsTerminal()
      invariant done ==> effects == [] && queue == []
      invariant host.OnlyAffects(id) && IoKept(host, world) && Driven(Quiet(world), 0, ms, k)
      decreases !done, Measure(last), if effects == [] then 0 else 1, |queue|
    {
      ghost var t := Task(false, true, last, queue, effects, false, own);
      RecoveryWritesNothing(c, ms);
      last, effects, queue, k, done, ms := ReplayTurn(host, id, own, last, effects, queue, k, world, c, ms, t, before);
    }
    DoneIsTerminal(c, ms);
  }

  // ----- One entry -----

  /** The recovery of one journaled instance: where it started, and what it did. */
  datatype Recovered = Recovered(start: Cell, run: seq<Micro>)
  {
    predicate Legal() {
      TaskRuns.Legal(start, run)
    }

    function End(): Cell
      requires Legal()
    {
      RunCell(start, run)
    }

    function Effects(): seq<Effect>
      requires Legal()
    {
      Trace(start, run)
    }

    ghost predicate FailedTwice()
      requires Legal()
    {
      FailsTwice(start, run)
    }
  }

  /** The outcome that a replay of the entry at `nowMs` has in view. */
  function TargetOf(entry: JournalEntry, nowMs: nat): Outcome {
    ReplayTarget(InTime(nowMs, entry.deadlineUnix))
  }

  /** `r` is a whole replay, at `nowMs`, of the entry it found, with the answers of `world`. */
  predicate Replays(r: Recovered, entry: JournalEntry, nowMs: nat, world: World) {
    && r.start.task == ReplayTask(TargetOf(entry, nowMs), entry) && r.start.entry == Some(Readable(entry))
    && CellInv(r.start) && r.Legal() && GivenFrom(r.run, Quiet(world), 0) && Finished(r.End().task)
  }

  /** What a whole replay comes to: ABORTED exactly when no command failed twice and the dead-man had not
      passed; otherwise ERROR. Without such a failure the host is clean, with it the host was marked. If
      removals work, the entry is gone. */
  ghost predicate ComesTo(r: Recovered, entry: JournalEntry, nowMs: nat, world: World, verdict: State)
    requires r.Legal()
  {
    && verdict == r.End().task.state
    && verdict == (if !r.FailedTwice() && nowMs / 1000 < entry.deadlineUnix then State.Aborted else State.Error)
    && (r.FailedTwice() <==> Taints(r.Effects()))
    && (!r.FailedTwice() ==> !r.End().dirty)
    && (r.End().dirty ==> r.End().Shielded())
    && (world.removeIo ==> r.End().entry.None?)
    && OperatorStop !in r.run
    && Story(r.Effects(), verdict) == ReplayScript(nowMs / 1000 < entry.deadlineUnix, Quiet(world))
  }

  lemma {:induction false} GivenRemovalsWork(ms: seq<Micro>, world: World, k: nat, d: nat)
    requires GivenOn(ms, world, k, d) && world.removeIo
    ensures RemovalsWork(ms)
    decreases |ms|
  {
    if ms != [] {
      GivenRemovalsWork(ms[1..], world, k + Asks(ms[0]), Drains(ms[0], d));
      assert forall n :: 0 < n < |ms| ==> ms[n] == ms[1..][n - 1];
    }
  }

  lemma {:induction false} NoAbortsInQuiet(ms: seq<Micro>, world: World, k: nat, d: nat)
    requires GivenOn(ms, Quiet(world), k, d)
    ensures OperatorStop !in ms
    decreases |ms|
  {
    if ms != [] {
      NoAbortsInQuiet(ms[1..], world, k + Asks(ms[0]), Drains(ms[0], d));
      assert Quiet(world).invocation(k) == WithoutAborts(world.invocation(k));
      assert ms == [ms[0]] + ms[1..];
    }
  }

  lemma ReplayCellKeeps(c: Cell, target: Outcome)
    requires c.task == ReplayTask(target, c.task.own) && !target.Done? && c.entry == Some(Readable(c.task.own))
    ensures CellInv(c) && Recovers(c) && !Taints(c.task.todo) && WillDrop(c.task)
  {
  }

  /** Every whole replay comes to that. */
  lemma WholeReplay(r: Recovered, entry: JournalEntry, nowMs: nat, world: World)
    requires Replays(r, entry, nowMs, world)
    ensures ComesTo(r, entry, nowMs, world, r.End().task.state)
  {
    ReplayCellKeeps(r.start, TargetOf(entry, nowMs));
    FinishedRecovery(r.start, r.run);
    ReplayIsScript(r.start, r.run, Quiet(world), nowMs / 1000 < entry.deadlineUnix);
    RunKeeps(r.start, r.run);
    NoAbortsInQuiet(r.run, world, 0, 0);
    if world.removeIo {
      GivenRemovalsWork(r.run, Quiet(world), 0, 0);
      RunDrops(r.start, r.run);
    }
  }

  /** Recover one journaled instance. */
  method ReplayEntry(host: Host, entry: JournalEntry, nowMs: nat, world: World)
    returns (last: State, ghost r: Recovered)
    requires host.Valid() && host.FileStatus(entry.instanceId) == Some(Readable(entry))
    modifies host, host.journal, host.taint
    ensures host.Valid() && host.OnlyAffects(entry.instanceId) && IoKept(host, world)
    ensures r.start == old(host.CellOf(entry.instanceId, ReplayTask(TargetOf(entry, nowMs), entry)))
    ensures Replays(r, entry, nowMs, world) && ComesTo(r, entry, nowMs, world, last)
    ensures r.End() == host.CellOf(entry.instanceId, r.End().task)
    ensures host.frames == old(host.frames) + FramesOf(entry.instanceId, r.Effects())
    ensures entry.instanceId !in host.stuck ==> entry.instanceId !in host.journal.files
  {
    var id := entry.instanceId;
    var target := TargetOf(entry, nowMs);
    ghost var c := host.CellOf(id, ReplayTask(target, entry));
    ReplayCellKeeps(c, target);
    ghost var ms;
    last, ms := ReplayLoop(host, id, target, world, entry, c);
    r := Recovered(c, ms);
    WholeReplay(r, entry, nowMs, world);
    if id !in host.stuck {
      RunDrops(c, ms);
    }
  }

  /** The two drivers agree: from the start of a recovery by abort and cleanup on, what `RunInstance` did
      (its cell, run and world) is what `ReplayEntry` does with the same outcome in view and the same
      answers, up to the reasons it gives; and they end in the same state. */
  lemma DriversAgree(c: Cell, ms: seq<Micro>, n: nat, live: World, r: Recovered, replay: World,
                    entry: JournalEntry, nowMs: nat)
    requires CellInv(c) && Legal(c, ms) && Finished(RunCell(c, ms).task) && GivenFrom(ms, live, 0)
    requires Replays(r, entry, nowMs, replay) && RecoversFrom(c, ms, n, TargetOf(entry, nowMs))
    requires SameAnswers(live, Asked(ms[..n]), Quiet(replay), 0)
    ensures Legal(RunCell(c, ms[..n]), ms[n..])
    ensures PlainAll(Trace(RunCell(c, ms[..n]), ms[n..])) == PlainAll(r.Effects())
    ensures RunCell(c, ms).task.state == r.End().task.state
  {
    hide CellInv, RecoversFrom, PlainAll, Trace, RunCell, GivenFrom, Legal, SameAnswers;
    LiveRecoveryIsReplay(c, ms, n, live, r.start, r.run, Quiet(replay), TargetOf(entry, nowMs));
  }

  // ----- An instance that a crash cut short -----

  /** From a RunFault over a crash to the replay. Cut the run of an instance wherever its fault can be on the
      host: the entry on disk is the one of its RunFault. So its replay ends ABORTED exactly when no command
      failed twice and the second it runs in lies before the start, the duration and the grace of that
      RunFault, and ERROR otherwise. */
  lemma CrashedRunIsReplayed(run: RunFaultFrame, startMs: nat, c: Cell, ms: seq<Micro>,
                             r: Recovered, nowMs: nat, world: World)
    requires CellInv(c) && c.task == NewTask(c.task.pristine, EntryFor(run, startMs))
    requires Legal(c, ms) && Journaled(RunCell(c, ms).task)
    requires r.start.entry == RunCell(c, ms).entry && Replays(r, r.start.task.own, nowMs, world)
    ensures r.start.task.own == EntryFor(run, startMs)
    ensures r.End().task.state ==
            if !r.FailedTwice() && nowMs / 1000 < startMs / 1000 + run.durationSecs + run.graceSecs
            then State.Aborted else State.Error
  {
    RunKeepsOwn(c, ms);
    WholeReplay(r, r.start.task.own, nowMs, world);
  }

  // ----- The whole journal -----

  /** The facts of a host that replay is about. */
  datatype HostView = HostView(
    files: map<InstanceId, FileContent>,
    dirty: set<InstanceId>,
    stuck: set<InstanceId>,
    excused: set<InstanceId>,
    tainted: bool)
  {
    predicate Shielded(id: InstanceId) {
      tainted || id in excused
    }
  }

  ghost function ViewOf(host: Host): HostView
    reads host, host.journal, host.taint
  {
    HostView(host.journal.files, host.dirty, host.stuck, host.excused, !host.taint.file.Absent?)
  }

  /** What replay has achieved for one entry that was there at the start. */
  predicate Handled(v: HostView, id: InstanceId, file: FileContent) {
    if ReadEntry(file).Ok? then
      && (id in v.dirty ==> v.Shielded(id))
      && (id !in v.stuck ==> id !in v.files)
    else
      v.Shielded(id) && id in v.files && v.files[id] == file
  }

  /** From `v` to `w` only `id` changed, and no protection was taken away. */
  predicate OnlyChanged(v: HostView, w: HostView, id: InstanceId) {
    && w.files - {id} == v.files - {id}
    && w.dirty - {id} == v.dirty - {id}
    && w.stuck - {id} == v.stuck - {id}
    && v.excused <= w.excused
    && (v.tainted ==> w.tainted)
  }

  lemma OtherFacts(v: HostView, w: HostView, id: InstanceId, other: InstanceId)
    requires OnlyChanged(v, w, id) && other != id
    ensures other in w.files <==> other in v.files
    ensures other in w.files ==> w.files[other] == v.files[other]
    ensures other in w.dirty <==> other in v.dirty
    ensures other in w.stuck <==> other in v.stuck
    ensures v.Shielded(other) ==> w.Shielded(other)
  {
    assert other in w.files <==> other in w.files - {id};
    assert other in v.files <==> other in v.files - {id};
    assert other in w.files ==> w.files[other] == (w.files - {id})[other];
    assert other in w.dirty <==> other in w.dirty - {id};
    assert other in v.dirty <==> other in v.dirty - {id};
    assert other in w.stuck <==> other in w.stuck - {id};
    assert other in v.stuck <==> other in v.stuck - {id};
  }

  /** An entry that cannot be read may hide a live fault: quarantine the host, keep the entry. */
  method QuarantineUnreadable(host: Host, ghost id: InstanceId, io: bool)
    requires host.Valid()
    modifies host`frames, host`excused, host.taint
    ensures host.Valid() && host.OnlyAffects(id) && host.Shielded(id)
    ensures io ==> host.excused == old(host.excused)
    ensures old(host.taint.file).Absent? && io ==>
              host.taint.file == Written(TaintRecord(Plain("unreadable journal entry at startup"), ""))
    ensures host.frames == old(host.frames) + [TaintReport(true)]
  {
    var ok := host.taint.Mark(TaintRecord(Plain("unreadable journal entry at startup"), ""), io);
    if !ok {
      host.excused := host.excused + {id};
    }
    host.frames := host.frames + [TaintReport(true)];
  }

  /** What is known of each readable entry once it was handled: its recovery, that recovery's verdict, and
      that the host is as the recovery left it. */
  ghost predicate Settled(v: HostView, id: InstanceId, entry: JournalEntry, nowMs: nat, world: World,
                          verdict: State, r: Recovered)
  {
    && Replays(r, entry, nowMs, world) && ComesTo(r, entry, nowMs, world, verdict)
    && (id in v.dirty <==> r.End().dirty)
    && (id in v.files <==> r.End().entry.Some?)
  }

  lemma StaysSettled(v: HostView, w: HostView, changed: InstanceId, id: InstanceId, entry: JournalEntry, nowMs: nat,
                     world: World, verdict: State, r: Recovered)
    requires OnlyChanged(v, w, changed) && id != changed && Settled(v, id, entry, nowMs, world, verdict, r)
    ensures Settled(w, id, entry, nowMs, world, verdict, r)
  {
    hide Replays, ComesTo;
    OtherFacts(v, w, changed, id);
  }

  function FramesOfOne(id: InstanceId, read: ReadResult, r: Recovered): seq<Frame> {
    if !read.Ok? then [TaintReport(true)] else if r.Legal() then FramesOf(id, r.Effects()) else []
  }

  /** One listed entry: recovered if readable, otherwise a reason to quarantine. */
  method HandleEntry(host: Host, id: InstanceId, read: ReadResult, nowMs: nat, world: World)
    returns (verdict: State, ghost r: Recovered)
    requires host.Valid() && id in host.journal.files && read == ReadEntry(host.journal.files[id])
    modifies host, host.journal, host.taint
    ensures host.Valid() && OnlyChanged(old(ViewOf(host)), ViewOf(host), id)
    ensures Handled(ViewOf(host), id, old(host.journal.files)[id])
    ensures IoKept(host, world)
    ensures read.Ok? ==> Settled(ViewOf(host), id, read.entry, nowMs, world, verdict, r)
    ensures host.frames == old(host.frames) + FramesOfOne(id, read, r)
  {
    verdict, r := State.Error, *;
    if read.Ok? {
      verdict, r := ReplayEntry(host, read.entry, nowMs, world);
    } else {
      QuarantineUnreadable(host, id, world.markIo);
    }
  }

  predicate Untouched(v: HostView, id: InstanceId, files: map<InstanceId, FileContent>) {
    id in v.files && id in files && v.files[id] == files[id]
  }

  type Listing = seq<Listed>

  /** How far replay has come: the entries before `n` are handled, the later ones untouched, and every
      fault that may be on the host is either still listed or behind a quarantine. */
  predicate Progress(v: HostView, listed: Listing, n: nat, files: map<InstanceId, FileContent>) {
    && n <= |listed|
    && (forall k :: 0 <= k < |listed| ==> listed[k].0 in files)
    && (forall k :: 0 <= k < n ==> Handled(v, listed[k].0, files[listed[k].0]))
    && (forall k :: n <= k < |listed| ==> Untouched(v, listed[k].0, files))
    && (forall id :: id in v.dirty ==> id in files || v.Shielded(id))
  }

  lemma ProgressOne(v: HostView, w: HostView, listed: Listing, n: nat, files: map<InstanceId, FileContent>)
    requires n < |listed| && Progress(v, listed, n, files) && OnlyChanged(v, w, listed[n].0)
    requires Handled(w, listed[n].0, files[listed[n].0]) && EachOnce(listed)
    ensures Progress(w, listed, n + 1, files)
  {
    forall k | 0 <= k < |listed| && k != n
      ensures k < n ==> Handled(w, listed[k].0, files[listed[k].0])
      ensures k > n ==> Untouched(w, listed[k].0, files)
    {
      OtherFacts(v, w, listed[n].0, listed[k].0);
      assert k > n ==> Untouched(v, listed[k].0, files);
    }
    forall id | id in w.dirty
      ensures id in files || w.Shielded(id)
    {
      if id != listed[n].0 {
        OtherFacts(v, w, listed[n].0, id);
      }
    }
  }

  lemma ProgressDone(v: HostView, listed: Listing, files: map<InstanceId, FileContent>)
    requires Progress(v, listed, |listed|, files)
    requires forall id :: id in files ==> (id, ReadEntry(files[id])) in listed
    ensures forall id :: id in files ==> Handled(v, id, files[id])
    ensures forall id :: id in v.dirty ==> v.Shielded(id)
  {
    forall id | id in files
      ensures Handled(v, id, files[id])
    {
      var k :| 0 <= k < |listed| && listed[k] == (id, ReadEntry(files[id]));
    }
  }

  type Verdicts = map<InstanceId, State>
  type Recoveries = map<InstanceId, Recovered>

  ghost predicate IsSettled(v: HostView, one: (InstanceId, ReadResult), nowMs: nat, worlds: InstanceId -> World,
                            verdicts: Verdicts, recoveries: Recoveries)
  {
    one.1.Ok? ==>
      && one.0 in verdicts && one.0 in recoveries
      && Settled(v, one.0, one.1.entry, nowMs, worlds(one.0), verdicts[one.0], recoveries[one.0])
  }

  /** The first `n` readable entries are settled. */
  ghost predicate AllSettled(v: HostView, listed: Listing, n: nat, nowMs: nat, worlds: InstanceId -> World,
                             verdicts: Verdicts, recoveries: Recoveries)
  {
    n <= |listed| && forall k :: 0 <= k < n ==> IsSettled(v, listed[k], nowMs, worlds, verdicts, recoveries)
  }

  lemma SettleOne(v: HostView, w: HostView, listed: Listing, n: nat, nowMs: nat, worlds: InstanceId -> World,
                  verdicts: Verdicts, recoveries: Recoveries, verdict: State, r: Recovered)
    requires n < |listed| && EachOnce(listed) && OnlyChanged(v, w, listed[n].0)
    requires AllSettled(v, listed, n, nowMs, worlds, verdicts, recoveries)
    requires listed[n].1.Ok? ==> Settled(w, listed[n].0, listed[n].1.entry, nowMs, worlds(listed[n].0), verdict, r)
    ensures AllSettled(w, listed, n + 1, nowMs, worlds, verdicts[listed[n].0 := verdict], recoveries[listed[n].0 := r])
  {
    hide Settled, OnlyChanged;
    var verdicts', recoveries' := verdicts[listed[n].0 := verdict], recoveries[listed[n].0 := r];
    forall k | 0 <= k < n + 1
      ensures IsSettled(w, listed[k], nowMs, worlds, verdicts', recoveries')
    {
      var (id, read) := listed[k];
      if k < n {
        assert IsSettled(v, listed[k], nowMs, worlds, verdicts, recoveries);
        if read.Ok? {
          StaysSettled(v, w, listed[n].0, id, read.entry, nowMs, worlds(id), verdicts[id], recoveries[id]);
        }
      }
    }
  }

  /** The frames replay queues, entry by entry in listing order. */
  function ReplayFrames(entries: Listing, recoveries: Recoveries): seq<Frame> {
    if entries == [] then []
    else
      var (id, read) := entries[|entries| - 1];
      ReplayFrames(entries[..|entries| - 1], recoveries)
      + if id in recoveries then FramesOfOne(id, read, recoveries[id]) else []
  }

  lemma {:induction false} FramesIgnoreOthers(entries: Listing, recoveries: Recoveries, id: InstanceId, r: Recovered)
    requires forall k :: 0 <= k < |entries| ==> entries[k].0 != id
    ensures ReplayFrames(entries, recoveries[id := r]) == ReplayFrames(entries, recoveries)
  {
    if entries != [] {
      FramesIgnoreOthers(entries[..|entries| - 1], recoveries, id, r);
    }
  }

  lemma FramesGrow(listed: Listing, n: nat, recoveries: Recoveries, r: Recovered)
    requires n < |listed| && EachOnce(listed)
    ensures ReplayFrames(listed[..n + 1], recoveries[listed[n].0 := r])
            == ReplayFrames(listed[..n], recoveries) + FramesOfOne(listed[n].0, listed[n].1, r)
  {
    FramesIgnoreOthers(listed[..n], recoveries, listed[n].0, r);
    assert listed[..n + 1][..n] == listed[..n];
  }

  ghost predicate MarksWork(worlds: InstanceId -> World) {
    forall id :: worlds(id).markIo
  }

  ghost predicate RemovalsAllWork(worlds: InstanceId -> World) {
    forall id :: worlds(id).removeIo
  }

  /** One turn of the replay loop. */
  method ReplayOne(host: Host, listed: Listing, n: nat, nowMs: nat, worlds: InstanceId -> World,
                   verdicts: Verdicts, ghost recoveries: Recoveries,
                   ghost files: map<InstanceId, FileContent>, ghost before: seq<Frame>)
    returns (verdicts': Verdicts, ghost recoveries': Recoveries)
    requires host.Valid() && n < |listed| && Progress(ViewOf(host), listed, n, files)
    requires listed[n].1 == ReadEntry(files[listed[n].0]) && EachOnce(listed)
    requires AllSettled(ViewOf(host), listed, n, nowMs, worlds, verdicts, recoveries)
    requires host.frames == before + ReplayFrames(listed[..n], recoveries)
    modifies host, host.journal, host.taint
    ensures host.Valid() && Progress(ViewOf(host), listed, n + 1, files)
    ensures AllSettled(ViewOf(host), listed, n + 1, nowMs, worlds, verdicts', recoveries')
    ensures host.frames == before + ReplayFrames(listed[..n + 1], recoveries')
    ensures IoKept(host, worlds(listed[n].0))
  {
    hide Settled, Handled, AllSettled, ReplayFrames, FramesOfOne, OnlyChanged;
    ghost var v, frames := ViewOf(host), ReplayFrames(listed[..n], recoveries);
    assert Untouched(v, listed[n].0, files);
    var verdict;
    ghost var r;
    verdict, r := HandleEntry(host, listed[n].0, listed[n].1, nowMs, worlds(listed[n].0));
    ProgressOne(v, ViewOf(host), listed, n, files);
    SettleOne(v, ViewOf(host), listed, n, nowMs, worlds, verdicts, recoveries, verdict, r);
    FramesGrow(listed, n, recoveries, r);
    Associative(before, frames, FramesOfOne(listed[n].0, listed[n].1, r));
    verdicts', recoveries' := verdicts[listed[n].0 := verdict], recoveries[listed[n].0 := r];
  }

  lemma AtTheStart(v: HostView, listed: Listing, nowMs: nat, worlds: InstanceId -> World)
    requires IsListing(listed, v.files, v.files.Keys)
    requires forall id :: id in v.dirty ==> id in v.files || v.Shielded(id)
    ensures Progress(v, listed, 0, v.files) && AllSettled(v, listed, 0, nowMs, worlds, map[], map[])
    ensures listed[..0] == [] && ReplayFrames(listed[..0], map[]) == []
  {
    assert forall k :: 0 <= k < |listed| ==> Untouched(v, listed[k].0, v.files);
  }

  /** Replay completeness. Whatever the plugins answer, replay terminates; afterwards every readable entry
      has been through a whole recovery with its plugin's answers, is removed if removals work, and ended
      ABORTED exactly when no command failed twice and its deadline had not passed; its host is clean or
      was quarantined. Every unreadable entry has quarantined the host, and no fault is left that is not
      behind a quarantine. */
  method ReplayJournal(host: Host, nowMs: nat, worlds: InstanceId -> World, errorText: ErrorText)
    returns (verdicts: Verdicts, ghost entries: Listing, ghost recoveries: Recoveries)
    requires host.Valid()
    requires forall id :: id in host.dirty ==> id in host.journal.files || host.Shielded(id)
    modifies host, host.journal, host.taint
    ensures host.Valid()
    ensures forall id :: id in old(host.journal.files) <==>
                           exists k :: 0 <= k < |entries| && entries[k].0 == id
    ensures forall k :: 0 <= k < |entries| ==> entries[k].1 == ReadEntry(old(host.journal.files)[entries[k].0])
    ensures SortedBy(entries, KeyBy(errorText))
    ensures forall id :: id in old(host.journal.files) ==> Handled(ViewOf(host), id, old(host.journal.files)[id])
    ensures AllSettled(ViewOf(host), entries, |entries|, nowMs, worlds, verdicts, recoveries)
    ensures forall id :: id in host.dirty ==> host.Shielded(id)
    ensures MarksWork(worlds) ==> host.excused == old(host.excused)
    ensures RemovalsAllWork(worlds) ==> host.stuck == old(host.stuck)
    ensures host.frames == old(host.frames) + ReplayFrames(entries, recoveries)
  {
    hide Settled, Handled, AllSettled, ReplayFrames, Progress, KeyBy, SortedBy;
    ghost var files, before := host.journal.files, host.frames;
    var listed := host.journal.List(errorText);
    entries, verdicts, recoveries := listed, map[], map[];
    AtTheStart(ViewOf(host), listed, nowMs, worlds);
    var n := 0;
    while n < |listed|
      invariant 0 <= n <= |listed|
      invariant host.Valid()
      invariant Progress(ViewOf(host), listed, n, files)
      invariant MarksWork(worlds) ==> host.excused == old(host.excused)
      invariant RemovalsAllWork(worlds) ==> host.stuck == old(host.stuck)
      invariant AllSettled(ViewOf(host), listed, n, nowMs, worlds, verdicts, recoveries)
      invariant host.frames == before + ReplayFrames(listed[..n], recoveries)
    {
      verdicts, recoveries := ReplayOne(host, listed, n, nowMs, worlds, verdicts, recoveries, files, before);
      n := n + 1;
    }
    assert listed[..n] == listed;
    ProgressDone(ViewOf(host), listed, files);
  }
}
