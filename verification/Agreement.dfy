/** The two drivers agree. A live recovery and a restart replay differ in the reason they give, in where
    operator aborts fall and in the loop that drives them; given the same answers to their commands, they
    do the same to the host and come to the same end. */
module Agreement {
  import opened Lifecycle
  import opened Machine
  import opened MachineRuns
  import opened Task
  import opened TaskRuns
  import opened Worlds
  import opened Scripts

  // ----- Equal up to the reasons -----

  /** The states differ at most in the reason a recovery was started for. */
  predicate Alike(s: State, t: State) {
    s == t || (s.Recovering? && t.Recovering? && s.rec.(reason := t.rec.reason) == t.rec)
  }

  /** The effect without the reason that goes with a status. */
  function Plain(effect: Effect): Effect {
    if effect.EmitStatus? then effect.(reason := None) else effect
  }

  function PlainAll(effects: seq<Effect>): (plain: seq<Effect>)
    ensures |plain| == |effects|
    ensures forall k :: 0 <= k < |effects| ==> plain[k] == Plain(effects[k])
  {
    if effects == [] then [] else [Plain(effects[0])] + PlainAll(effects[1..])
  }

  lemma PlainAppend(a: seq<Effect>, b: seq<Effect>)
    ensures PlainAll(a + b) == PlainAll(a) + PlainAll(b)
  {
  }

  lemma StepAlike(s: State, t: State, event: Event)
    requires Alike(s, t)
    ensures Alike(Step(s, event).0, Step(t, event).0)
    ensures PlainAll(Step(s, event).1) == PlainAll(Step(t, event).1)
  {
  }

  /** The machine never looks at the reason. */
  lemma {:induction false} RunAlike(s: State, t: State, events: seq<Event>)
    requires Alike(s, t)
    ensures Alike(Run(s, events).0, Run(t, events).0)
    ensures PlainAll(Run(s, events).1) == PlainAll(Run(t, events).1)
    decreases |events|
  {
    if events != [] {
      StepAlike(s, t, events[0]);
      RunAlike(Step(s, events[0]).0, Step(t, events[0]).0, events[1..]);
      PlainAppend(Step(s, events[0]).1, Run(Step(s, events[0]).0, events[1..]).1);
      PlainAppend(Step(t, events[0]).1, Run(Step(t, events[0]).0, events[1..]).1);
    }
  }

  // ----- The same answers -----

  predicate SameAt(a: World, j: nat, b: World, k: nat, n: nat) {
    SameAnswer(a.invocation(j + n), b.invocation(k + n))
  }

  /** From its j-th invocation on, `a` answers as `b` does from its k-th. */
  ghost predicate SameAnswers(a: World, j: nat, b: World, k: nat) {
    forall n: nat :: SameAt(a, j, b, k, n)
  }

  lemma AnswersGoOn(a: World, j: nat, b: World, k: nat)
    requires SameAnswers(a, j, b, k)
    ensures SameAnswer(a.invocation(j), b.invocation(k))
    ensures SameAnswers(a, j + 1, b, k + 1)
  {
    assert SameAt(a, j, b, k, 0);
    var j', k' := j + 1, k + 1;
    forall n: nat
      ensures SameAt(a, j', b, k', n)
    {
      assert SameAt(a, j, b, k, n + 1);
      assert j' + n == j + (n + 1) && k' + n == k + (n + 1);
    }
  }

  // ----- The agreement -----

  predicate SameStory(a: Story, b: Story) {
    PlainAll(a.effects) == PlainAll(b.effects) && a.last == b.last
  }

  lemma ThenSame(a: seq<Effect>, s: Story, b: seq<Effect>, t: Story)
    requires PlainAll(a) == PlainAll(b) && SameStory(s, t)
    ensures SameStory(Then(a, s), Then(b, t))
  {
    PlainAppend(a, s.effects);
    PlainAppend(b, t.effects);
  }

  lemma SameAnswerMoves(s: State, t: State, a: World, j: nat, b: World, k: nat)
    requires Alike(s, t) && s.Recovering? && SameAnswer(a.invocation(j), b.invocation(k))
    ensures var (next, effects) := Answer(s, a, j);
            var (next', effects') := Answer(t, b, k);
            && Alike(next, next') && PlainAll(effects) == PlainAll(effects')
            && (next.Recovering? || next.IsTerminal()) && Measure(next) < Measure(s)
  {
    var event := GateAnswer(s.rec.current, a.invocation(j));
    assert event == GateAnswer(t.rec.current, b.invocation(k));
    assert Recorded(s) == s && Recorded(t) == t;
    StepAlike(s, t, event);
    AnswerMoves(s.rec, a.invocation(j));
    hide Step, PlainAll, Recorded;
  }

  lemma AnswerMoves(rec: Recovery, gate: Gate)
    ensures var next := Step(State.Recovering(rec), GateAnswer(rec.current, gate)).0;
            (next.Recovering? || next.IsTerminal()) && Measure(next) < Measure(State.Recovering(rec))
  {
  }

  /** Alike recoveries with the same answers come to the same story. */
  lemma {:induction false} DictatedAlike(s: State, a: World, j: nat, t: State, b: World, k: nat)
    requires Alike(s, t) && SameAnswers(a, j, b, k) && (s.Recovering? || s.IsTerminal())
    ensures SameStory(Dictated(s, a, j), Dictated(t, b, k))
    decreases Measure(s)
  {
    hide Dictated, Answer, PlainAll;
    if s.Recovering? {
      AnswersGoOn(a, j, b, k);
      SameAnswerMoves(s, t, a, j, b, k);
      AnswerComes(s, a, j);
      AnswerComes(t, b, k);
      var (next, effects) := Answer(s, a, j);
      var (next', effects') := Answer(t, b, k);
      DictatedAlike(next, a, j + 1, next', b, k + 1);
      ThenSame(effects, Dictated(next, a, j + 1), effects', Dictated(next', b, k + 1));
    } else {
      EndTells(s, a, j);
      EndTells(t, b, k);
    }
  }

  /** Two recoveries, alike up to the reasons and given the same answers, perform the same effects up to
      the reasons and end in the same state, whatever loop drives them and wherever aborts fall. */
  lemma RecoveriesAgree(c: Cell, ms: seq<Micro>, a: World, j: nat, d: Cell, ns: seq<Micro>, b: World, k: nat)
    requires CellInv(c) && Legal(c, ms) && Finished(RunCell(c, ms).task) && GivenFrom(ms, a, j)
    requires CellInv(d) && Legal(d, ns) && Finished(RunCell(d, ns).task) && GivenFrom(ns, b, k)
    requires c.task.state.Recovering? && Alike(c.task.state, d.task.state)
    requires !c.task.running && !d.task.running
    requires c.task.todo != [] && PlainAll(c.task.todo) == PlainAll(d.task.todo)
    requires SameAnswers(a, j, b, k)
    ensures PlainAll(Trace(c, ms)) == PlainAll(Trace(d, ns))
    ensures RunCell(c, ms).task.state == RunCell(d, ns).task.state
  {
    RunIsDictated(c, ms, a, j, 0);
    RunIsDictated(d, ns, b, k, 0);
    DictatedAlike(c.task.state, a, j, d.task.state, b, k);
    ThenSame(c.task.todo, Dictated(c.task.state, a, j), d.task.todo, Dictated(d.task.state, b, k));
  }

  /** The step that has just been taken started a recovery by abort and cleanup, aiming at `outcome`. */
  predicate StartsAbort(t: Task, outcome: Outcome) {
    && t.state.Recovering?
    && Alike(t.state, ReplayRecovery(outcome).0) && PlainAll(t.todo) == PlainAll(ReplayRecovery(outcome).1)
  }

  lemma ReplayStarts(t: Task, u: Task, outcome: Outcome)
    requires StartsAbort(t, outcome) && u == ReplayTask(outcome, u.own)
    requires Framed(t)
    ensures t.todo != [] && t.state.Recovering? && Alike(t.state, u.state) && PlainAll(t.todo) == PlainAll(u.todo)
    ensures !t.running && !u.running
  {
  }

  lemma InvIsFramed(c: Cell)
    requires CellInv(c)
    ensures Framed(c.task)
  {
  }

  lemma SplitAt(c: Cell, ms: seq<Micro>, n: nat, world: World)
    requires CellInv(c) && Legal(c, ms) && GivenFrom(ms, world, 0) && n <= |ms|
    ensures Legal(c, ms[..n]) && Legal(RunCell(c, ms[..n]), ms[n..])
    ensures RunCell(RunCell(c, ms[..n]), ms[n..]) == RunCell(c, ms)
    requires Legal(c, ms[..n]) && !RunCell(c, ms[..n]).task.running
    ensures CellInv(RunCell(c, ms[..n])) && GivenFrom(ms[n..], world, Asked(ms[..n]))
  {
    hide CellInv;
    assert ms == ms[..n] + ms[n..];
    RunsSplit(c, ms[..n], ms[n..]);
    RunsAppend(c, ms[..n], ms[n..]);
    RunKeeps(c, ms[..n]);
    GivenAppend(ms[..n], ms[n..], world, 0, 0);
    NothingDrained(c, ms[..n], 0);
  }

  /** After its first `n` micro-steps the run has just started a recovery by abort and cleanup. */
  predicate RecoversFrom(c: Cell, ms: seq<Micro>, n: nat, outcome: Outcome) {
    n <= |ms| && Legal(c, ms[..n]) && StartsAbort(RunCell(c, ms[..n]).task, outcome)
  }

  /** The live loop and the replay loop agree. Take the whole run of a live instance, in which a recovery
      by abort and cleanup was started after `n` micro-steps, and the whole run of a restart replay with
      the same outcome in view, in which the plugin answers as it did there. From the start of the
      recovery on both perform the same effects, up to the reasons, and end in the same state. */
  lemma LiveRecoveryIsReplay(c: Cell, ms: seq<Micro>, n: nat, live: World,
                             d: Cell, ns: seq<Micro>, replay: World, outcome: Outcome)
    requires CellInv(c) && Legal(c, ms) && Finished(RunCell(c, ms).task) && GivenFrom(ms, live, 0)
    requires CellInv(d) && Legal(d, ns) && Finished(RunCell(d, ns).task) && GivenFrom(ns, replay, 0)
    requires RecoversFrom(c, ms, n, outcome) && d.task == ReplayTask(outcome, d.task.own)
    requires SameAnswers(live, Asked(ms[..n]), replay, 0)
    ensures Legal(RunCell(c, ms[..n]), ms[n..])
    ensures PlainAll(Trace(RunCell(c, ms[..n]), ms[n..])) == PlainAll(Trace(d, ns))
    ensures RunCell(c, ms).task.state == RunCell(d, ns).task.state
  {
    hide CellInv, Alike, PlainAll, Finished, RunCell, GivenFrom, Trace, Asked, StartsAbort;
    var started := RunCell(c, ms[..n]);
    RunKeeps(c, ms[..n]);
    InvIsFramed(started);
    ReplayStarts(started.task, d.task, outcome);
    SplitAt(c, ms, n, live);
    RecoveriesAgree(started, ms[n..], live, Asked(ms[..n]), d, ns, replay, 0);
  }

  /** Such recoveries exist: an operator abort, or a master lost for too long, starts the recovery that a
      replay before the deadline does; the dead-man starts the one of a replay past it. */
  lemma StopsStartReplays(t: Task, event: Event)
    requires t.state.Active? && event.StopRequested? && !event.cause.DurationElapsed?
    ensures StartsAbort(Advance(t, event), if event.cause.Deadman? then Outcome.Error else Outcome.Aborted)
  {
    var outcome := event.cause.TargetOutcome();
    var live, replay := StartRecovery(event.cause, StoppedBy(event.cause)).1, ReplayRecovery(outcome).1;
    assert Plain(live[0]) == Plain(replay[0]) && Plain(live[1]) == Plain(replay[1]);
    assert PlainAll(live) == PlainAll(replay);
  }
}
