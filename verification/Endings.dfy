/** How a run of one instance can end: what is left in the journal, what is left on the host, and
    exactly when a failed quarantine strands a fault. */
module Endings {
  import opened Lifecycle
  import opened Machine
  import opened MachineRuns
  import opened Task
  import opened TaskRuns

  // ----- The journal entry is dropped -----

  predicate RemovalPending(todo: seq<Effect>) {
    exists k :: 0 <= k < |todo| && todo[k].RemoveJournal?
  }

  /** The entry will be removed before the task is finished. */
  predicate WillDrop(t: Task) {
    || t.state.Injecting? || t.state.Active? || t.state.Recovering?
    || (t.state.WritingJournal? && LastEvent(t) == Some(JournalWritten))
    || RemovalPending(t.todo)
  }

  lemma TakeDrops(c: Cell)
    requires CellInv(c) && Enabled(c, Take) && WillDrop(c.task)
    ensures WillDrop(After(c, Take).task)
  {
    var t, u := c.task, After(c, Take).task;
    if |t.queue| > 1 {
      TakeStopKeeps(c);
      assert t.queue[0] == t.queue[..|t.queue| - 1][0];
      assert u.queue[|u.queue| - 1] == t.queue[|t.queue| - 1];
    } else if u.state.IsTerminal() && u.todo != [] {
      assert u.todo[0].RemoveJournal? || (|u.todo| > 1 && u.todo[1].RemoveJournal?);
    }
  }

  lemma MicroDrops(c: Cell, m: Micro)
    requires CellInv(c) && Enabled(c, m) && (m.DropEntry? ==> m.ok)
    requires c.entry.Some? ==> WillDrop(c.task)
    ensures After(c, m).entry.Some? ==> WillDrop(After(c, m).task)
  {
    var t, u := c.task, After(c, m).task;
    if m.Take? && c.entry.Some? {
      TakeDrops(c);
    } else if m.Emit? || m.Quarantine? {
      assert forall k :: 0 < k < |t.todo| ==> u.todo[k - 1] == t.todo[k];
    } else if m.PersistEntry? {
      NextIsOwed(t);
    } else if m.Fallback? {
      FramedIsNotWedged(t);
    }
  }

  predicate RemovalsWork(ms: seq<Micro>) {
    forall k :: 0 <= k < |ms| && ms[k].DropEntry? ==> ms[k].ok
  }

  lemma RemovalsGoOn(ms: seq<Micro>)
    requires RemovalsWork(ms) && ms != []
    ensures RemovalsWork(ms[1..]) && (ms[0].DropEntry? ==> ms[0].ok)
  {
    assert forall k :: 0 <= k < |ms[1..]| ==> ms[1..][k] == ms[k + 1];
  }

  lemma DropsOneMore(c: Cell, m: Micro)
    requires CellInv(c) && Enabled(c, m) && (m.DropEntry? ==> m.ok)
    requires c.entry.Some? ==> WillDrop(c.task)
    ensures CellInv(After(c, m)) && (After(c, m).entry.Some? ==> WillDrop(After(c, m).task))
  {
    MicroKeeps(c, m);
    MicroDrops(c, m);
  }

  lemma FinishedIsNotDropping(t: Task)
    requires Finished(t)
    ensures !WillDrop(t)
  {
  }

  /** An instance that started without a leftover entry ends without one, if removals succeed. */
  lemma {:induction false} RunDrops(c: Cell, ms: seq<Micro>)
    requires CellInv(c) && Legal(c, ms) && RemovalsWork(ms)
    requires c.entry.Some? ==> WillDrop(c.task)
    ensures Finished(RunCell(c, ms).task) ==> RunCell(c, ms).entry.None?
    decreases |ms|
  {
    hide CellInv, WillDrop, After, Enabled, RemovalsWork;
    if ms == [] {
      if Finished(c.task) {
        FinishedIsNotDropping(c.task);
      }
    } else {
      RemovalsGoOn(ms);
      DropsOneMore(c, ms[0]);
      RunDrops(After(c, ms[0]), ms[1..]);
    }
  }

  // ----- A recovery cleans the host, or taints it -----

  /** In recovery, or done with it: terminal only when clean or about to be quarantined. */
  predicate Recovers(c: Cell) {
    || c.task.state.Recovering?
    || (c.task.state.IsTerminal() && (c.dirty ==> c.task.todo != [] && c.task.todo[0].MarkTainted?))
  }

  lemma MicroRecovers(c: Cell, m: Micro)
    requires CellInv(c) && c.task.pristine && Enabled(c, m) && Recovers(c)
    ensures Recovers(After(c, m)) || (m.Quarantine? && Taints(Completed(c, m)))
  {
    if m.Quarantine? {
      assert Completed(c, m)[0].MarkTainted?;
    }
    FramedIsNotWedged(c.task);
  }

  /** A recovery that ends without quarantining the host has cleaned it, whatever its outcome. */
  lemma {:induction false} RecoveryCleans(c: Cell, ms: seq<Micro>)
    requires CellInv(c) && c.task.pristine && Recovers(c) && Legal(c, ms)
    requires Finished(RunCell(c, ms).task) && !Taints(Trace(c, ms))
    ensures !RunCell(c, ms).dirty
    decreases |ms|
  {
    if ms != [] {
      var m, d := ms[0], After(c, ms[0]);
      MicroKeeps(c, m);
      MicroRecovers(c, m);
      TaintsAppend(Completed(c, m), Trace(d, ms[1..]));
      RecoveryCleans(d, ms[1..]);
    }
  }

  /** One recovery command failed, and failed again when it was retried. */
  ghost predicate FailsTwice(c: Cell, ms: seq<Micro>)
    requires Legal(c, ms)
  {
    exists command :: Tally(c.task.state, Consumed(c, ms), command) >= 2
  }

  /** The verdict of a finished recovery, read off its effects: quarantined and ERROR, or clean and
      exactly the outcome it aimed for. Quarantined means that one command failed twice. */
  lemma FinishedRecovery(c: Cell, ms: seq<Micro>)
    requires CellInv(c) && c.task.pristine && c.task.state.Recovering? && !Taints(c.task.todo) && Legal(c, ms)
    requires Finished(RunCell(c, ms).task)
    ensures var d := RunCell(c, ms);
            if Taints(Trace(c, ms)) then d.task.state.Error?
            else !d.dirty && d.task.state == c.task.state.rec.outcome.Terminal()
    ensures Taints(Trace(c, ms)) <==> FailsTwice(c, ms)
  {
    TraceIsMachineRun(c, ms);
    EventsAreAborts(c, ms);
    var events := Consumed(c, ms);
    RecoveryVerdict(c.task.state, events);
    AbortsAreNoDeadman(c.task.state, events);
    TaintIffTwice(c.task.state, events);
    TaintsAppend(c.task.todo, Run(c.task.state, events).1);
    assert Trace(c, ms) + [] == Trace(c, ms);
    if !Taints(Trace(c, ms)) {
      RecoveryCleans(c, ms);
    }
  }

  // ----- When a quarantine cannot be persisted -----

  /** At `i` the run could not persist the quarantine, and at `k` after it the entry was removed all the same. */
  predicate MarkLost(ms: seq<Micro>, i: int, k: int) {
    0 <= i < k < |ms| && ms[i] == Quarantine(false) && ms[k] == DropEntry(true)
  }

  ghost predicate LosesMark(ms: seq<Micro>) {
    exists i, k :: MarkLost(ms, i, k)
  }

  predicate Drops(ms: seq<Micro>) {
    DropEntry(true) in ms
  }

  lemma LosesMarkFirst(ms: seq<Micro>)
    requires ms != []
    ensures LosesMark(ms) <==> (ms[0] == Quarantine(false) && Drops(ms[1..])) || LosesMark(ms[1..])
  {
    assert forall n :: 0 < n < |ms| ==> ms[n] == ms[1..][n - 1];
    if LosesMark(ms) {
      var i, k :| MarkLost(ms, i, k);
      assert i > 0 ==> MarkLost(ms[1..], i - 1, k - 1);
      assert ms[1..][k - 1] == DropEntry(true);
    }
    if LosesMark(ms[1..]) {
      var i, k :| MarkLost(ms[1..], i, k);
      assert MarkLost(ms, i + 1, k + 1);
    }
    if ms[0] == Quarantine(false) && Drops(ms[1..]) {
      var k :| 0 <= k < |ms[1..]| && ms[1..][k] == DropEntry(true);
      assert MarkLost(ms, 0, k + 1);
    }
  }

  /** The mark is behind: what is left is to remove the entry and to say so. */
  predicate PastMark(t: Task) {
    && !t.settingUp && !t.running && t.state.Error? && t.queue == [] && |t.todo| <= 2
    && forall k :: 0 <= k < |t.todo| ==> t.todo[k].RemoveJournal? || t.todo[k].EmitStatus?
  }

  lemma {:induction false} AfterTheMark(c: Cell, ms: seq<Micro>)
    requires PastMark(c.task) && Legal(c, ms)
    ensures var d := RunCell(c, ms);
            && d.dirty == c.dirty && d.tainted == c.tainted
            && (d.entry.None? <==> c.entry.None? || Drops(ms))
    ensures !LosesMark(ms)
    decreases |ms|
  {
    if ms != [] {
      var d := After(c, ms[0]);
      assert forall k :: 0 <= k < |d.task.todo| ==> d.task.todo[k] == c.task.todo[k + 1];
      AfterTheMark(d, ms[1..]);
      LosesMarkFirst(ms);
      assert ms == [ms[0]] + ms[1..];
    }
  }

  /** A mark is attempted with the entry still there. */
  lemma MarkAhead(c: Cell, ok: bool)
    requires CellInv(c) && Enabled(c, Quarantine(ok))
    ensures c.entry.Some? && PastMark(After(c, Quarantine(ok)).task)
  {
  }

  lemma OthersMarkNothing(c: Cell, m: Micro)
    requires Enabled(c, m) && !m.Quarantine?
    ensures After(c, m).tainted == c.tainted && After(c, m).excused == c.excused
  {
  }

  /** A fault that was on an unshielded host is left with no journal entry and no quarantine exactly when
      the host ends with it, its mark failed, and the entry was removed after that. Over every whole run,
      from any point of it on, whatever the plugins, the aborts and the file operations do. */
  lemma {:induction false} StrandedExactly(c: Cell, ms: seq<Micro>)
    requires CellInv(c) && !c.Shielded() && Legal(c, ms) && Finished(RunCell(c, ms).task)
    ensures var d := RunCell(c, ms);
            (d.dirty && d.entry.None? && !d.tainted) <==> (d.dirty && LosesMark(ms))
    decreases |ms|
  {
    if ms != [] {
      var m, d, rest := ms[0], After(c, ms[0]), ms[1..];
      LosesMarkFirst(ms);
      MicroKeeps(c, m);
      if m.Quarantine? {
        MarkAhead(c, m.ok);
        AfterTheMark(d, rest);
      } else {
        OthersMarkNothing(c, m);
        StrandedExactly(d, rest);
      }
    }
  }

  /** Seen from the operations: the fault is on the host when the mark is attempted, so a whole run that
      leaves it there unmarked attempted a mark, and that failed. */
  lemma {:induction false} UnmarkedMeansFailedMark(c: Cell, ms: seq<Micro>)
    requires CellInv(c) && !c.Shielded() && Legal(c, ms) && Finished(RunCell(c, ms).task)
    requires RunCell(c, ms).dirty && !RunCell(c, ms).tainted
    ensures Quarantine(false) in ms
    decreases |ms|
  {
    if ms != [] {
      var m, d, rest := ms[0], After(c, ms[0]), ms[1..];
      MicroKeeps(c, m);
      if m.Quarantine? {
        MarkAhead(c, m.ok);
        AfterTheMark(d, rest);
      } else {
        OthersMarkNothing(c, m);
        UnmarkedMeansFailedMark(d, rest);
      }
    }
  }

  // One more micro-step from cell `d`, which the run `ms` reached.
  lemma Go(c: Cell, ms: seq<Micro>, d: Cell, m: Micro) returns (ns: seq<Micro>, e: Cell)
    requires Legal(c, ms) && RunCell(c, ms) == d && Enabled(d, m)
    ensures Legal(c, ns) && RunCell(c, ns) == e && e == After(d, m)
  {
    Snoc(c, ms, m);
    ns, e := ms + [m], After(d, m);
  }

  // A finished invocation of the leading command, and the step on its result.
  lemma InvokeAndTake(c: Cell, ms: seq<Micro>, d: Cell, outcome: InvocationOutcome) returns (ns: seq<Micro>, e: Cell)
    requires Legal(c, ms) && RunCell(c, ms) == d
    requires !d.task.settingUp && !d.task.running && d.task.queue == [] && |d.task.todo| == 1 && d.task.todo[0].Invoke?
    ensures Legal(c, ns) && RunCell(c, ns) == e
    ensures var command := d.task.todo[0].command;
            var (next, effects) := Step(d.task.state, InvocationEvent(command, outcome));
            && e.task == d.task.(state := next, todo := effects)
            && e.entry == d.entry && e.tainted == d.tainted && e.excused == d.excused
            && (e.dirty <==> (d.dirty || command.Inject?)
                             && !(command.Cleanup? && outcome == Exited(Success))
                             && !(command.Inject? && outcome == Exited(InjectFailed) && d.task.pristine))
  {
    ns, e := Go(c, ms, d, Spawn);
    ns, e := Go(c, ns, e, Reap(outcome));
    ns, e := Go(c, ns, e, Take);
  }

  function Start(own: JournalEntry): Cell {
    Cell(NewTask(true, own), None, false, false, false)
  }

  lemma ReachPreflight(own: JournalEntry) returns (ms: seq<Micro>, d: Cell)
    ensures Legal(Start(own), ms) && RunCell(Start(own), ms) == d
    ensures d.task == Task(false, true, State.PreflightInstall(None), [],
                           [Invoke(PluginCommand.Preflight, Install)], false, own)
    ensures !d.dirty && !d.tainted
  {
    ms, d := Go(Start(own), [], Start(own), Emit);
    ms, d := Go(Start(own), ms, d, SetupPassed);
    ms, d := Go(Start(own), ms, d, Take);
    ms, d := Go(Start(own), ms, d, Emit);
  }

  lemma ReachWriting(own: JournalEntry) returns (ms: seq<Micro>, d: Cell)
    ensures Legal(Start(own), ms) && RunCell(Start(own), ms) == d
    ensures d.task == Task(false, true, State.WritingJournal(None), [], [WriteJournal], false, own)
    ensures !d.dirty && !d.tainted
  {
    ms, d := ReachPreflight(own);
    ms, d := InvokeAndTake(Start(own), ms, d, Exited(Success));
    ms, d := InvokeAndTake(Start(own), ms, d, Exited(Success));
  }

  lemma ReachActive(own: JournalEntry) returns (ms: seq<Micro>, d: Cell)
    ensures Legal(Start(own), ms) && RunCell(Start(own), ms) == d
    ensures d.task == Task(false, true, State.Active, [], [], false, own)
    ensures d.dirty && !d.tainted
  {
    ms, d := ReachWriting(own);
    ms, d := Go(Start(own), ms, d, PersistEntry(true));
    ms, d := Go(Start(own), ms, d, Take);
    ms, d := Go(Start(own), ms, d, Emit);
    ms, d := InvokeAndTake(Start(own), ms, d, Exited(Success));
    ms, d := Go(Start(own), ms, d, Emit);
  }

  /** A quarantine that cannot be persisted does strand a fault: a whole run that ends in ERROR with
      the fault on the host, no journal entry and no taint. */
  lemma FailedQuarantineStrands(own: JournalEntry) returns (ms: seq<Micro>)
    ensures Legal(Start(own), ms)
    ensures var d := RunCell(Start(own), ms);
            d.dirty && d.entry.None? && !d.tainted && d.task.state.Error?
  {
    var d;
    ms, d := ReachActive(own);
    ms, d := Go(Start(own), ms, d, Waited(DurationElapsed));
    ms, d := Go(Start(own), ms, d, Emit);
    ms, d := InvokeAndTake(Start(own), ms, d, TimedOut);
    ms, d := InvokeAndTake(Start(own), ms, d, TimedOut);
    ms, d := Go(Start(own), ms, d, Quarantine(false));
    ms, d := Go(Start(own), ms, d, DropEntry(true));
  }
}
