/** How the outside answers one instance, and which runs of micro-steps those answers dictate. */
module Worlds {
  import opened Lifecycle
  import opened Sequences
  import opened Machine
  import opened MachineRuns
  import opened Task
  import opened TaskRuns

  /** The digest gate, then the process: `aborts` operator stops are drained while it runs. */
  datatype Gate =
    | Rejected(why: string)
    | GateFailed(why: string)
    | Ran(aborts: nat, outcome: InvocationOutcome)

  /** `setupJoins` says that the setup task itself comes back; `invocation(k)` is what happens to the
      k-th plugin command. */
  datatype World = World(
    setupJoins: bool,
    invocation: nat -> Gate,
    writeIo: bool,
    removeIo: bool,
    markIo: bool,
    stop: StopCause)

  /** The result event of an invocation. */
  function GateAnswer(command: PluginCommand, gate: Gate): Event {
    match gate
    case Rejected(why) => InvokeRejected(command, why)
    case GateFailed(why) => InvocationFailed(command, why)
    case Ran(_, outcome) => InvocationEvent(command, outcome)
  }

  /** The two gates differ at most in how many aborts arrive meanwhile. */
  predicate SameAnswer(a: Gate, b: Gate) {
    a == b || (a.Ran? && b.Ran? && a.outcome == b.outcome)
  }

  // ----- The micro-steps that a world dictates -----

  function Stops(aborts: nat): seq<Micro> {
    if aborts == 0 then [] else Stops(aborts - 1) + [OperatorStop]
  }

  /** The events that so many drained aborts leave in the queue. */
  function Aborts(aborts: nat): seq<Event> {
    if aborts == 0 then [] else [StopRequested(OperatorAbort)] + Aborts(aborts - 1)
  }

  /** The micro-steps of one gated invocation. */
  function GateSteps(gate: Gate): seq<Micro> {
    match gate
    case Rejected(why) => [Refuse(why)]
    case GateFailed(why) => [Unverified(why)]
    case Ran(aborts, outcome) => [Spawn] + Stops(aborts) + [Reap(outcome)]
  }

  lemma RanSteps(ms: seq<Micro>, aborts: nat, outcome: InvocationOutcome)
    ensures ((ms + [Spawn]) + Stops(aborts)) + [Reap(outcome)] == ms + GateSteps(Ran(aborts, outcome))
  {
    Associative(ms, [Spawn], Stops(aborts));
    Associative(ms, [Spawn] + Stops(aborts), [Reap(outcome)]);
  }

  function Asks(m: Micro): nat {
    if m.Refuse? || m.Unverified? || m.Reap? then 1 else 0
  }

  /** How many invocations the micro-steps bring to their result. */
  function Asked(ms: seq<Micro>): nat {
    if ms == [] then 0 else Asks(ms[0]) + Asked(ms[1..])
  }

  /** How many aborts the running process has seen after `m`, of which `d` before. */
  function Drains(m: Micro, d: nat): nat {
    match m
    case Spawn | Reap(_) => 0
    case OperatorStop => d + 1
    case _ => d
  }

  function Drained(ms: seq<Micro>, d: nat): nat {
    if ms == [] then d else Drained(ms[1..], Drains(ms[0], d))
  }

  /** `m` happens as the world says, when `k` invocations came before it and `d` aborts were drained in
      the one that is running. */
  predicate Given(m: Micro, world: World, k: nat, d: nat) {
    match m
    case SetupPassed => world.setupJoins
    case Waited(cause) => cause == world.stop
    case PersistEntry(ok) => ok == world.writeIo
    case DropEntry(ok) => world.removeIo ==> ok
    case Quarantine(ok) => world.markIo ==> ok
    case Refuse(why) => world.invocation(k) == Rejected(why)
    case Unverified(why) => world.invocation(k) == GateFailed(why)
    case Spawn => world.invocation(k).Ran?
    case OperatorStop => world.invocation(k).Ran? && d < world.invocation(k).aborts
    case Reap(outcome) => world.invocation(k) == Ran(d, outcome)
    case _ => true
  }

  predicate GivenOn(ms: seq<Micro>, world: World, k: nat, d: nat)
    decreases |ms|
  {
    ms == [] || (Given(ms[0], world, k, d) && GivenOn(ms[1..], world, k + Asks(ms[0]), Drains(ms[0], d)))
  }

  /** The micro-steps are the world's, from its k-th invocation on. */
  predicate GivenFrom(ms: seq<Micro>, world: World, k: nat) {
    GivenOn(ms, world, k, 0)
  }

  /** The micro-steps `ms`, begun after `start` invocations, are the world's, and brought it to `k`, with no
      process running. */
  predicate Driven(world: World, start: nat, ms: seq<Micro>, k: nat) {
    GivenFrom(ms, world, start) && k == start + Asked(ms) && Drained(ms, 0) == 0
  }

  lemma {:induction false} GivenAppend(ms: seq<Micro>, ns: seq<Micro>, world: World, k: nat, d: nat)
    ensures Asked(ms + ns) == Asked(ms) + Asked(ns)
    ensures Drained(ms + ns, d) == Drained(ns, Drained(ms, d))
    ensures GivenOn(ms + ns, world, k, d) <==>
            GivenOn(ms, world, k, d) && GivenOn(ns, world, k + Asked(ms), Drained(ms, d))
    decreases |ms|
  {
    if ms == [] {
      assert ms + ns == ns;
    } else {
      assert (ms + ns)[1..] == ms[1..] + ns;
      GivenAppend(ms[1..], ns, world, k + Asks(ms[0]), Drains(ms[0], d));
    }
  }

  lemma DrivenMore(world: World, start: nat, ms: seq<Micro>, k: nat, more: seq<Micro>)
    requires Driven(world, start, ms, k) && GivenFrom(more, world, k) && Drained(more, 0) == 0
    ensures Driven(world, start, ms + more, k + Asked(more))
  {
    GivenAppend(ms, more, world, start, 0);
  }

  lemma DrivenOne(world: World, start: nat, ms: seq<Micro>, k: nat, m: Micro)
    requires Driven(world, start, ms, k) && Given(m, world, k, 0) && !m.OperatorStop?
    ensures Driven(world, start, ms + [m], k + Asks(m))
  {
    assert [m][1..] == [];
    assert GivenOn([m][1..], world, k + Asks(m), 0) && Asked([m][1..]) == 0 && Drained([m][1..], 0) == 0;
    assert Asked([m]) == Asks(m) && Drained([m], 0) == 0 && GivenOn([m], world, k, 0);
    DrivenMore(world, start, ms, k, [m]);
  }

  lemma {:induction false} StopsAreGiven(aborts: nat, world: World, k: nat)
    requires world.invocation(k).Ran? && aborts <= world.invocation(k).aborts
    ensures GivenOn(Stops(aborts), world, k, 0) && Asked(Stops(aborts)) == 0 && Drained(Stops(aborts), 0) == aborts
  {
    if aborts > 0 {
      StopsAreGiven(aborts - 1, world, k);
      assert [OperatorStop][1..] == [];
      GivenAppend(Stops(aborts - 1), [OperatorStop], world, k, 0);
    }
  }

  lemma RanIsGiven(aborts: nat, outcome: InvocationOutcome, world: World, k: nat)
    requires world.invocation(k) == Ran(aborts, outcome)
    ensures GivenFrom(GateSteps(Ran(aborts, outcome)), world, k)
    ensures Asked(GateSteps(Ran(aborts, outcome))) == 1 && Drained(GateSteps(Ran(aborts, outcome)), 0) == 0
  {
    assert [Spawn][1..] == [] && [Reap(outcome)][1..] == [];
    StopsAreGiven(aborts, world, k);
    GivenAppend([Spawn], Stops(aborts), world, k, 0);
    GivenAppend([Spawn] + Stops(aborts), [Reap(outcome)], world, k, 0);
  }

  /** The steps of the world's own gate are the world's. */
  lemma GateIsGiven(world: World, start: nat, ms: seq<Micro>, k: nat)
    requires Driven(world, start, ms, k)
    ensures Driven(world, start, ms + GateSteps(world.invocation(k)), k + 1)
  {
    match world.invocation(k) {
      case Rejected(why) => DrivenOne(world, start, ms, k, Refuse(why));
      case GateFailed(why) => DrivenOne(world, start, ms, k, Unverified(why));
      case Ran(aborts, outcome) =>
        RanIsGiven(aborts, outcome, world, k);
        DrivenMore(world, start, ms, k, GateSteps(Ran(aborts, outcome)));
    }
  }

  /** While no process runs, no abort has been drained. */
  lemma {:induction false} NothingDrained(c: Cell, ms: seq<Micro>, d: nat)
    requires CellInv(c) && Legal(c, ms) && (!c.task.running ==> d == 0)
    ensures !RunCell(c, ms).task.running ==> Drained(ms, d) == 0
    decreases |ms|
  {
    if ms != [] {
      MicroKeeps(c, ms[0]);
      NothingDrained(After(c, ms[0]), ms[1..], Drains(ms[0], d));
    }
  }
}
