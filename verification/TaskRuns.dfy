/** Whole micro-step runs of one instance: they perform exactly the effects of the machine run over
    the events they consume, in order, so everything proved of the machine holds of the shell. */
module TaskRuns {
  import opened Lifecycle
  import opened Machine
  import opened MachineRuns
  import opened Task

  predicate Legal(c: Cell, ms: seq<Micro>)
    decreases |ms|
  {
    ms == [] || (Enabled(c, ms[0]) && Legal(After(c, ms[0]), ms[1..]))
  }

  function RunCell(c: Cell, ms: seq<Micro>): Cell
    requires Legal(c, ms)
    decreases |ms|
  {
    if ms == [] then c else RunCell(After(c, ms[0]), ms[1..])
  }

  lemma {:induction false} RunKeeps(c: Cell, ms: seq<Micro>)
    requires CellInv(c) && Legal(c, ms)
    ensures CellInv(RunCell(c, ms))
    decreases |ms|
  {
    if ms != [] {
      MicroKeeps(c, ms[0]);
      RunKeeps(After(c, ms[0]), ms[1..]);
    }
  }

  /** No micro-step of a legal run from a framed task is the fallback branch. */
  lemma {:induction false} NeverFallsBack(c: Cell, ms: seq<Micro>)
    requires CellInv(c) && Legal(c, ms)
    ensures forall k :: 0 <= k < |ms| ==> !ms[k].Fallback?
    decreases |ms|
  {
    if ms != [] {
      FramedIsNotWedged(c.task);
      MicroKeeps(c, ms[0]);
      NeverFallsBack(After(c, ms[0]), ms[1..]);
      assert forall k :: 0 < k < |ms| ==> ms[k] == ms[1..][k - 1];
    }
  }

  // ----- What a run consumes and performs -----

  /** The event the machine steps on. */
  function Eaten(c: Cell, m: Micro): seq<Event>
    requires Enabled(c, m)
  {
    match m
    case Take => [c.task.queue[0]]
    case Waited(cause) => [StopRequested(cause)]
    case Fallback => [StopRequested(Deadman)]
    case _ => []
  }

  /** The effect that is performed to its end. */
  function Completed(c: Cell, m: Micro): seq<Effect>
    requires Enabled(c, m)
  {
    match m
    case SetupPassed | SetupRefused(_) | Take | Waited(_) | Fallback | Spawn | OperatorStop => []
    case _ => [c.task.todo[0]]
  }

  function Consumed(c: Cell, ms: seq<Micro>): seq<Event>
    requires Legal(c, ms)
    decreases |ms|
  {
    if ms == [] then [] else Eaten(c, ms[0]) + Consumed(After(c, ms[0]), ms[1..])
  }

  function Trace(c: Cell, ms: seq<Micro>): seq<Effect>
    requires Legal(c, ms)
    decreases |ms|
  {
    if ms == [] then [] else Completed(c, ms[0]) + Trace(After(c, ms[0]), ms[1..])
  }

  /** Two runs end to end. */
  lemma {:induction false} RunsAppend(c: Cell, first: seq<Micro>, second: seq<Micro>)
    requires Legal(c, first) && Legal(RunCell(c, first), second)
    ensures Legal(c, first + second)
    ensures RunCell(c, first + second) == RunCell(RunCell(c, first), second)
    ensures Trace(c, first + second) == Trace(c, first) + Trace(RunCell(c, first), second)
    decreases |first|
  {
    if first == [] {
      assert first + second == second;
    } else {
      assert (first + second)[1..] == first[1..] + second;
      RunsAppend(After(c, first[0]), first[1..], second);
    }
  }

  /** Every part of a legal run is one. */
  lemma {:induction false} RunsSplit(c: Cell, first: seq<Micro>, second: seq<Micro>)
    requires Legal(c, first + second)
    ensures Legal(c, first) && Legal(RunCell(c, first), second)
    decreases |first|
  {
    if first == [] {
      assert first + second == second;
    } else {
      assert (first + second)[1..] == first[1..] + second;
      RunsSplit(After(c, first[0]), first[1..], second);
    }
  }

  /** One more micro-step at the end of a run. */
  lemma Snoc(c: Cell, ms: seq<Micro>, m: Micro)
    requires Legal(c, ms) && Enabled(RunCell(c, ms), m)
    ensures Legal(c, ms + [m]) && RunCell(c, ms + [m]) == After(RunCell(c, ms), m)
    ensures Trace(c, ms + [m]) == Trace(c, ms) + Completed(RunCell(c, ms), m)
  {
    var last := RunCell(c, ms);
    assert [m][1..] == [];
    assert Legal(After(last, m), []);
    assert Legal(last, [m]);
    assert RunCell(last, [m]) == After(last, m);
    assert Trace(last, [m]) == Completed(last, m) + [];
    RunsAppend(c, ms, [m]);
  }

  /** A micro-step either performs the next effect, or steps the machine when none is pending. */
  lemma MicroIsMachineStep(c: Cell, m: Micro)
    requires Enabled(c, m)
    ensures Eaten(c, m) == [] ==>
              After(c, m).task.state == c.task.state && Completed(c, m) + After(c, m).task.todo == c.task.todo
    ensures Eaten(c, m) != [] ==>
              && |Eaten(c, m)| == 1 && Completed(c, m) == [] && c.task.todo == []
              && (After(c, m).task.state, After(c, m).task.todo) == Step(c.task.state, Eaten(c, m)[0])
  {
  }

  lemma JoinTraces(done: seq<Effect>, more: seq<Effect>, left: seq<Effect>,
                   now: seq<Effect>, next: seq<Effect>, later: seq<Effect>)
    requires more + left == next + later && done + next == now
    ensures (done + more) + left == now + later
  {
    assert (done + more) + left == done + (more + left);
    assert done + (next + later) == (done + next) + later;
  }

  /** The shell adds nothing to the machine, loses nothing and reorders nothing: what it has performed
      plus what it still has to perform is what the machine decided. */
  lemma {:induction false} TraceIsMachineRun(c: Cell, ms: seq<Micro>)
    requires Legal(c, ms)
    ensures RunCell(c, ms).task.state == Run(c.task.state, Consumed(c, ms)).0
    ensures Trace(c, ms) + RunCell(c, ms).task.todo == c.task.todo + Run(c.task.state, Consumed(c, ms)).1
    decreases |ms|
  {
    if ms == [] {
      assert c.task.todo + [] == c.task.todo;
    } else {
      var m, d, rest := ms[0], After(c, ms[0]), ms[1..];
      TraceIsMachineRun(d, rest);
      MicroIsMachineStep(c, m);
      var last := RunCell(c, ms).task.todo;
      var later := Run(d.task.state, Consumed(d, rest)).1;
      if Eaten(c, m) == [] {
        assert Consumed(c, ms) == Consumed(d, rest);
        JoinTraces(Completed(c, m), Trace(d, rest), last, c.task.todo, d.task.todo, later);
      } else {
        assert Consumed(c, ms)[1..] == Consumed(d, rest);
        assert Consumed(c, ms)[0] == Eaten(c, m)[0];
        assert Trace(c, ms) == Trace(d, rest);
        assert [] + (d.task.todo + later) == d.task.todo + later;
      }
    }
  }

  // ----- What the master sees -----

  lemma ClimbFromPending(t: seq<InstanceState>)
    requires Climbs(0, t)
    ensures forall k :: 0 < k < |[InstanceState.Pending] + t| ==>
                          ([InstanceState.Pending] + t)[k].Rank() > ([InstanceState.Pending] + t)[k - 1].Rank()
  {
    var s := [InstanceState.Pending] + t;
    forall k | 0 < k < |s|
      ensures s[k].Rank() > s[k - 1].Rank()
    {
      var n := k - 1;
      assert 0 <= n < |t|;
      if n == 0 {
        assert t[n].Rank() > 0;
      } else {
        assert t[n].Rank() > t[n - 1].Rank();
      }
      assert s[k] == t[n] && s[k - 1] == if n == 0 then InstanceState.Pending else t[n - 1];
    }
  }

  /** At a loop head (no effect pending) the last status sent is the machine's own state, which is
      what the instance's view holds. */
  lemma LoopHeadStatus(c: Cell, ms: seq<Micro>)
    requires Legal(c, ms) && c.task == NewTask(c.task.pristine, c.task.own)
    requires RunCell(c, ms).task.todo == []
    ensures var statuses := Statuses(Trace(c, ms));
            && statuses != []
            && statuses[0].Pending?
            && (forall k :: 0 < k < |statuses| ==> statuses[k].Rank() > statuses[k - 1].Rank())
            && statuses[|statuses| - 1] == RunCell(c, ms).task.state.InstanceStateOf()
  {
    TraceIsMachineRun(c, ms);
    var events := Consumed(c, ms);
    StatusStream(State.Pending, events);
    var more := Run(State.Pending, events).1;
    assert Trace(c, ms) + [] == Trace(c, ms);
    StatusesAppend(c.task.todo, more);
    UnfoldStatuses(c.task.todo);
    var t := Statuses(more);
    assert Climbs(0, t);
    assert Statuses(Trace(c, ms)) == [InstanceState.Pending] + t;
    ClimbFromPending(t);
  }

  /** In one life of the agent a shell completes at most one inject invocation. */
  lemma ShellInvocationBound(c: Cell, ms: seq<Micro>)
    requires Legal(c, ms) && c.task == NewTask(c.task.pristine, c.task.own)
    ensures Invocations(Trace(c, ms), PluginCommand.Inject) <= 1
    ensures Invocations(Trace(c, ms), PluginCommand.Preflight) <= 2
    ensures Invocations(Trace(c, ms), PluginCommand.Abort) <= 2
    ensures Invocations(Trace(c, ms), PluginCommand.Cleanup) <= 2
  {
    TraceIsMachineRun(c, ms);
    LifetimeInvocationBound(Consumed(c, ms));
    var left := RunCell(c, ms).task.todo;
    forall command: PluginCommand
      ensures Invocations(Trace(c, ms), command) <= Invocations(Run(State.Pending, Consumed(c, ms)).1, command)
    {
      InvocationsAppend(Trace(c, ms), left, command);
      InvocationsAppend(c.task.todo, Run(State.Pending, Consumed(c, ms)).1, command);
      UnfoldInvocations(c.task.todo, command);
    }
  }

  // ----- Recovery is the same under every driver -----

  function Results(events: seq<Event>): seq<Event> {
    if events == [] then []
    else (if events[0].StopRequested? then [] else [events[0]]) + Results(events[1..])
  }

  predicate StopsAreAborts(events: seq<Event>) {
    forall k :: 0 <= k < |events| && events[k].StopRequested? ==> events[k].cause.OperatorAbort?
  }

  /** Any number of operator aborts, at any points, leave a recovery as it is. */
  lemma {:induction false} RecoveryIgnoresAborts(state: State, events: seq<Event>)
    requires state.Recovering? || state.IsTerminal()
    requires StopsAreAborts(events)
    ensures Run(state, events) == Run(state, Results(events))
    decreases |events|
  {
    if events != [] {
      var (next, effects) := Step(state, events[0]);
      assert StopsAreAborts(events[1..]) by {
        forall k | 0 <= k < |events[1..]| && events[1..][k].StopRequested?
          ensures events[1..][k].cause.OperatorAbort?
        {
          assert events[1..][k] == events[k + 1];
        }
      }
      RecoveryIgnoresAborts(next, events[1..]);
      if events[0].StopRequested? {
        assert Results(events) == Results(events[1..]);
        assert (next, effects) == (state, []);
        assert effects + Run(next, events[1..]).1 == Run(next, events[1..]).1;
      } else {
        assert Results(events)[1..] == Results(events[1..]);
      }
    }
  }

  /** The last two effects: the journal entry is removed, and only then the last status is sent. */
  predicate DropsThenSays(effects: seq<Effect>) {
    |effects| >= 2 && effects[|effects| - 2].RemoveJournal? && effects[|effects| - 1].EmitStatus?
  }

  /** A dead-man stop arrives before the recovery is over. */
  predicate DeadmanFires(state: State, events: seq<Event>)
    decreases |events|
  {
    && events != [] && state.Recovering?
    && (events[0] == StopRequested(Deadman) || DeadmanFires(Step(state, events[0]).0, events[1..]))
  }

  /** One step of a recovery: it goes on towards the same outcome, or ends; only the dead-man changes it. */
  lemma RecoveryStep(state: State, event: Event)
    requires Wf(state) && state.Recovering?
    ensures var (next, effects) := Step(state, event);
            if next.IsTerminal() then
              && DropsThenSays(effects) && event != StopRequested(Deadman)
              && if Taints(effects) then next.Error? else next == state.rec.outcome.Terminal()
            else
              && next.Recovering? && !Taints(effects)
              && next.rec.outcome == if event == StopRequested(Deadman) then Outcome.Error else state.rec.outcome
  {
    var (next, effects) := Step(state, event);
    if next.IsTerminal() && |effects| == 3 {
      assert effects[0].MarkTainted?;
    }
  }

  lemma DropsAtTheEnd(a: seq<Effect>, b: seq<Effect>)
    requires DropsThenSays(b)
    ensures DropsThenSays(a + b)
  {
  }

  /** A recovery that runs to its end: quarantined and ERROR when a command failed twice, ERROR too if the
      dead-man fired meanwhile, otherwise exactly the outcome it was aiming for; with the journal entry
      dropped before the status. */
  lemma {:induction false} RecoveryVerdict(state: State, events: seq<Event>)
    requires Wf(state) && state.Recovering?
    requires Run(state, events).0.IsTerminal()
    ensures var (last, effects) := Run(state, events);
            && DropsThenSays(effects)
            && if Taints(effects) || DeadmanFires(state, events) then last.Error?
               else last == state.rec.outcome.Terminal()
    decreases |events|
  {
    hide Step, Wf, Taints, DropsThenSays;
    var (next, effects) := Step(state, events[0]);
    var rest := Run(next, events[1..]).1;
    RecoveryStep(state, events[0]);
    StepKeepsWf(state, events[0]);
    if next.IsTerminal() {
      TerminalAbsorbs(next, events[1..]);
      assert effects + [] == effects && !DeadmanFires(next, events[1..]);
    } else {
      RecoveryVerdict(next, events[1..]);
      DropsAtTheEnd(effects, rest);
      TaintsAppend(effects, rest);
    }
  }

  lemma {:induction false} AbortsAreNoDeadman(state: State, events: seq<Event>)
    requires StopsAreAborts(events)
    ensures !DeadmanFires(state, events)
    decreases |events|
  {
    if events != [] {
      assert forall k :: 0 <= k < |events[1..]| ==> events[1..][k] == events[k + 1];
      AbortsAreNoDeadman(Step(state, events[0]).0, events[1..]);
    }
  }

  // ----- What decides how an instance ends -----

  /** How an instance ends that is stopped for this cause while its fault is on the host. */
  function EndFor(cause: StopCause): State {
    match cause
    case DurationElapsed => State.Done
    case OperatorAbort => State.Aborted
    case MasterLost => State.Aborted
    case Deadman => State.Error
  }

  /** The turning points of an instance, and the end that each of them sets: a stop of an ACTIVE fault, the
      success of an inject that was stopped meanwhile, and an inject that may have half-happened. */
  function Turns(state: State, event: Event): Option<State> {
    match (state, event)
    case (Active, StopRequested(cause)) => Some(EndFor(cause))
    case (Injecting(Some(cause)), CommandFinished(Inject, Success)) => Some(EndFor(cause))
    case (Injecting(_), CommandFinished(Inject, disposition)) =>
      if disposition.Success? || disposition.InjectFailed? then None else Some(State.Error)
    case (Injecting(_), InvocationFailed(_, _)) => Some(State.Error)
    case _ => None
  }

  lemma TurnStarts(state: State, event: Event)
    requires !state.Recovering? && !state.IsTerminal()
    ensures var next := Step(state, event).0;
            && (next.Recovering? <==> Turns(state, event).Some?)
            && (next.Recovering? ==> Turns(state, event).value == next.rec.outcome.Terminal() && Wf(next))
            && (next.IsTerminal() ==> next.Aborted?)
            && !Taints(Step(state, event).1)
  {
  }

  lemma {:induction false} NoTaintBefore(state: State, events: seq<Event>)
    requires !state.Recovering? && !Run(state, events).0.Recovering? && !Run(state, events).0.IsTerminal()
    ensures !Taints(Run(state, events).1)
    decreases |events|
  {
    if events != [] {
      var (next, effects) := Step(state, events[0]);
      if state.IsTerminal() || next.IsTerminal() {
        TerminalAbsorbs(next, events[1..]);
      } else if next.Recovering? {
        StaysRecovering(next, events[1..]);
      } else {
        TurnStarts(state, events[0]);
        NoTaintBefore(next, events[1..]);
        TaintsAppend(effects, Run(next, events[1..]).1);
      }
    }
  }

  lemma {:induction false} StaysRecovering(state: State, events: seq<Event>)
    requires state.Recovering? || state.IsTerminal()
    ensures Run(state, events).0.Recovering? || Run(state, events).0.IsTerminal()
    decreases |events|
  {
    if events != [] {
      StaysRecovering(Step(state, events[0]).0, events[1..]);
    }
  }

  /** The turning point decides. A whole life that comes to one, after any events and before any others,
      ends as that turning point says, unless a recovery command fails twice or the dead-man fires in the
      recovery; then it ends in ERROR. */
  lemma TurnDecides(before: seq<Event>, event: Event, after: seq<Event>)
    requires Turns(Run(State.Pending, before).0, event).Some?
    requires Run(State.Pending, before + [event] + after).0.IsTerminal()
    ensures var state := Run(State.Pending, before).0;
            var (last, effects) := Run(State.Pending, before + [event] + after);
            last == if Taints(effects) || DeadmanFires(Step(state, event).0, after) then State.Error
                    else Turns(state, event).value
  {
    var (state, first) := Run(State.Pending, before);
    var (next, effects) := Step(state, event);
    TurnStarts(state, event);
    NoTaintBefore(State.Pending, before);
    RunAppend(State.Pending, before, [event] + after);
    assert before + ([event] + after) == before + [event] + after;
    assert ([event] + after)[1..] == after;
    RecoveryVerdict(next, after);
    TaintsAppend(effects, Run(next, after).1);
    TaintsAppend(first, effects + Run(next, after).1);
  }

  /** A life that never turns ends ABORTED: its fault was never on the host. */
  lemma {:induction false} NoTurnAborts(state: State, events: seq<Event>)
    requires !state.Recovering? && !state.IsTerminal() && Run(state, events).0.IsTerminal()
    requires forall k :: 0 <= k < |events| ==> Turns(Run(state, events[..k]).0, events[k]).None?
    ensures Run(state, events).0.Aborted?
    decreases |events|
  {
    var next, rest := Step(state, events[0]).0, events[1..];
    assert events[..0] == [];
    TurnStarts(state, events[0]);
    if next.IsTerminal() {
      TerminalAbsorbs(next, rest);
    } else {
      forall k | 0 <= k < |rest|
        ensures Turns(Run(next, rest[..k]).0, rest[k]).None?
      {
        assert events[..k + 1][0] == events[0] && events[..k + 1][1..] == rest[..k];
        assert Turns(Run(state, events[..k + 1]).0, events[k + 1]).None?;
      }
      NoTurnAborts(next, rest);
    }
  }

  lemma EatsAbort(c: Cell, m: Micro)
    requires CellInv(c) && Enabled(c, m) && (c.task.state.Recovering? || c.task.state.IsTerminal())
    ensures StopsAreAborts(Eaten(c, m))
    ensures After(c, m).task.state.Recovering? || After(c, m).task.state.IsTerminal()
  {
    FramedIsNotWedged(c.task);
    if m.Take? {
      assert |c.task.queue| > 1 ==> c.task.queue[0] == c.task.queue[..|c.task.queue| - 1][0];
    }
  }

  lemma {:induction false} EventsAreAborts(c: Cell, ms: seq<Micro>)
    requires CellInv(c) && Legal(c, ms)
    requires c.task.state.Recovering? || c.task.state.IsTerminal()
    ensures StopsAreAborts(Consumed(c, ms))
    decreases |ms|
  {
    hide CellInv, Enabled, After, Eaten;
    if ms != [] {
      MicroKeeps(c, ms[0]);
      EatsAbort(c, ms[0]);
      EventsAreAborts(After(c, ms[0]), ms[1..]);
    }
  }

  // ----- The entry on disk -----

  /** A task that must be journaled finds its own entry on disk. */
  predicate OwnOnDisk(c: Cell) {
    Journaled(c.task) ==> c.entry == Some(Readable(c.task.own))
  }

  lemma MicroKeepsOwn(c: Cell, m: Micro)
    requires CellInv(c) && OwnOnDisk(c) && Enabled(c, m)
    ensures OwnOnDisk(After(c, m)) && After(c, m).task.own == c.task.own
  {
    FramedIsNotWedged(c.task);
    if m.Take? {
      TakeKeepsOwn(c);
    } else if c.task.todo != [] && (c.task.todo[0].Invoke? || c.task.todo[0].WriteJournal?) {
      NextIsOwed(c.task);
      hide Framed, CellInv;
    }
  }

  lemma TakeKeepsOwn(c: Cell)
    requires CellInv(c) && OwnOnDisk(c) && Enabled(c, Take)
    ensures OwnOnDisk(After(c, Take))
  {
    if |c.task.queue| > 1 {
      TakeStopKeeps(c);
      assert c.task.queue[0] == c.task.queue[..|c.task.queue| - 1][0];
    }
  }

  lemma {:induction false} RunKeepsOwn(c: Cell, ms: seq<Micro>)
    requires CellInv(c) && OwnOnDisk(c) && Legal(c, ms)
    ensures OwnOnDisk(RunCell(c, ms)) && RunCell(c, ms).task.own == c.task.own
    decreases |ms|
  {
    hide CellInv, OwnOnDisk, Enabled, After;
    if ms != [] {
      MicroKeeps(c, ms[0]);
      MicroKeepsOwn(c, ms[0]);
      RunKeepsOwn(After(c, ms[0]), ms[1..]);
    }
  }
}
