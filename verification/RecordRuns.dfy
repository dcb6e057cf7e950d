/** What every handler keeps, over every sequence of messages. */
module RecordRuns {
  import opened Lifecycle
  import opened Record

  // ----- The record invariant -----

  predicate DistinctIds(instances: seq<InstanceRecord>) {
    forall j, k :: 0 <= j < k < |instances| ==> instances[j].id != instances[k].id
  }

  predicate NoneAsked(instances: seq<InstanceRecord>) {
    forall k :: 0 <= k < |instances| ==> !instances[k].abortRequested
  }

  predicate AllTerminalOrAsked(instances: seq<InstanceRecord>) {
    forall k :: 0 <= k < |instances| ==> instances[k].IsTerminal() || instances[k].abortRequested
  }

  /** No instance has failed or was aborted, and no host of the experiment is known to be tainted. */
  predicate NothingBad(e: Experiment) {
    && e.tainted == []
    && forall k :: 0 <= k < |e.instances| ==> !e.instances[k].state.Error? && !e.instances[k].state.Aborted?
  }

  predicate RecordInv(e: Experiment) {
    && DistinctIds(e.instances)
    && match e.phase
       case Running => NothingBad(e) && NoneAsked(e.instances) && e.cause.None? && !AllTerminal(e.instances)
       case Halting => e.cause.Some? && AllTerminalOrAsked(e.instances) && !AllTerminal(e.instances)
       case Concluded(outcome) =>
         Outcome(e.instances, e.tainted) == Some(outcome) && (!outcome.Completed? ==> e.cause.Some?)
  }

  lemma {:induction false} TriggerIff(instances: seq<InstanceRecord>)
    ensures FirstTrigger(instances).Some? <==> exists k :: 0 <= k < |instances| && Triggers(instances[k])
  {
    if instances != [] {
      TriggerIff(instances[1..]);
      if FirstTrigger(instances[1..]).Some? {
        var k :| 0 <= k < |instances[1..]| && Triggers(instances[1..][k]);
        assert Triggers(instances[k + 1]);
      }
      if exists k :: 0 <= k < |instances| && Triggers(instances[k]) {
        var k :| 0 <= k < |instances| && Triggers(instances[k]);
        assert k > 0 ==> instances[1..][k - 1] == instances[k];
        assert Triggers(instances[0]) || Triggers(instances[1..][k - 1]);
      }
    }
  }

  /** `k` is the first instance that satisfies the kill-switch. */
  predicate FirstToTrigger(instances: seq<InstanceRecord>, k: int) {
    0 <= k < |instances| && Triggers(instances[k]) && forall j :: 0 <= j < k ==> !Triggers(instances[j])
  }

  /** The trigger names the first instance in record order that satisfies it, and says which way. */
  lemma {:induction false} TriggerNamesTheFirst(instances: seq<InstanceRecord>, k: int)
    requires FirstToTrigger(instances, k)
    ensures FirstTrigger(instances) ==
            Some(Cause(Some(instances[k].host), Some(instances[k].id),
                       if instances[k].state.Error? then InstanceError(instances[k].reason)
                       else AgentAbort(instances[k].reason),
                       instances[k].updatedMs))
  {
    if k > 0 {
      assert !Triggers(instances[0]);
      assert forall j :: 0 <= j < k ==> instances[1..][j] == instances[j + 1];
      TriggerNamesTheFirst(instances[1..], k - 1);
    }
  }

  // ----- The outcome lattice -----

  function Severity(outcome: ExperimentOutcome): nat {
    match outcome
    case Completed => 0
    case Aborted => 1
    case Error => 2
  }

  function InstanceSeverity(state: InstanceState): nat {
    match state
    case Error => 2
    case Aborted => 1
    case _ => 0
  }

  function Worst(instances: seq<InstanceRecord>): (w: nat)
    ensures w <= 2
  {
    if instances == [] then 0
    else
      var (first, rest) := (InstanceSeverity(instances[0].state), Worst(instances[1..]));
      if first > rest then first else rest
  }

  lemma {:induction false} WorstIs(instances: seq<InstanceRecord>)
    requires AllTerminal(instances)
    ensures Worst(instances) == 2 <==> SomeIn(instances, InstanceState.Error)
    ensures Worst(instances) == 0 <==> AllIn(instances, InstanceState.Done)
  {
    if instances != [] {
      assert forall k :: 0 < k < |instances| ==> instances[k] == instances[1..][k - 1];
      WorstIs(instances[1..]);
      assert instances[0].IsTerminal();
      if SomeIn(instances[1..], InstanceState.Error) {
        var k :| 0 <= k < |instances[1..]| && instances[1..][k].state == InstanceState.Error;
        assert instances[k + 1].state == InstanceState.Error;
      }
    }
  }

  /** The outcome exists exactly when nothing is live, and is the worst that happened to any instance;
      a taint is as bad as an ERROR. */
  lemma OutcomeIsTheWorst(instances: seq<InstanceRecord>, tainted: seq<TaintedHost>)
    ensures Outcome(instances, tainted).Some? <==> AllTerminal(instances)
    ensures AllTerminal(instances) ==>
              Severity(Outcome(instances, tainted).value) == if tainted != [] then 2 else Worst(instances)
  {
    if AllTerminal(instances) {
      WorstIs(instances);
    }
  }

  /** Every bad outcome finds its cause in the record. */
  lemma BadOutcomeHasCause(e: Experiment)
    requires Outcome(e.instances, e.tainted).Some? && !Outcome(e.instances, e.tainted).value.Completed?
    ensures OutcomeCause(e, Outcome(e.instances, e.tainted).value).Some?
  {
    if Outcome(e.instances, e.tainted).value.Aborted? {
      var k :| 0 <= k < |e.instances| && e.instances[k].state != InstanceState.Done;
      assert e.instances[k].IsTerminal() && e.instances[k].state != InstanceState.Error;
      assert SomeIn(e.instances, InstanceState.Aborted);
    }
  }

  lemma AskingKeepsStates(instances: seq<InstanceRecord>)
    ensures AllTerminal(AskAll(instances)) <==> AllTerminal(instances)
    ensures forall state :: SomeIn(AskAll(instances), state) <==> SomeIn(instances, state)
    ensures forall state :: AllIn(AskAll(instances), state) <==> AllIn(instances, state)
    ensures AllTerminalOrAsked(AskAll(instances))
    ensures DistinctIds(instances) ==> DistinctIds(AskAll(instances))
    ensures forall tainted :: Outcome(AskAll(instances), tainted) == Outcome(instances, tainted)
  {
    var asked := AskAll(instances);
    assert forall k :: 0 <= k < |asked| ==> asked[k].state == instances[k].state && asked[k].id == instances[k].id;
    forall state
      ensures SomeIn(asked, state) <==> SomeIn(instances, state)
    {
      if SomeIn(instances, state) {
        var k :| 0 <= k < |instances| && instances[k].state == state;
        assert asked[k].state == state;
      }
    }
  }

  lemma ConcludeKeeps(e: Experiment)
    requires DistinctIds(e.instances) && !e.phase.Concluded?
    requires e.phase.Halting? ==> e.cause.Some? && AllTerminalOrAsked(e.instances)
    requires e.phase.Running? ==>
               NothingBad(e) && NoneAsked(e.instances) && (e.cause.None? || AllTerminal(e.instances))
    ensures RecordInv(ConcludeIfDone(e))
  {
    var outcome := Outcome(e.instances, e.tainted);
    if outcome.Some? && !outcome.value.Completed? {
      BadOutcomeHasCause(e);
    }
  }

  /** While the experiment runs, the kill-switch fires exactly when something is bad. */
  lemma TriggerIsBad(e: Experiment)
    requires e.phase.Running? && NoneAsked(e.instances)
    ensures KillTrigger(e).Some? <==> !NothingBad(e)
  {
    TriggersAreBadStates(e.instances);
    if !NothingBad(e) && e.tainted == [] {
      var k :| 0 <= k < |e.instances| && (e.instances[k].state.Error? || e.instances[k].state.Aborted?);
      assert SomeIn(e.instances, e.instances[k].state);
    }
  }

  lemma ReactKeeps(e: Experiment)
    requires DistinctIds(e.instances) && !e.phase.Concluded?
    requires e.phase.Halting? ==> e.cause.Some? && AllTerminalOrAsked(e.instances)
    requires e.phase.Running? ==> NoneAsked(e.instances) && e.cause.None?
    ensures RecordInv(React(e))
  {
    AskingKeepsStates(e.instances);
    if e.phase.Running? {
      TriggerIsBad(e);
    }
    if KillTrigger(e).Some? {
      ConcludeKeeps(FireKillSwitch(e, KillTrigger(e).value));
    } else {
      ConcludeKeeps(e);
    }
  }

  // ----- The deadline -----

  /** The instance as the deadline leaves it. */
  function Unresolved(i: InstanceRecord, tsMs: int): InstanceRecord {
    i.(state := InstanceState.Error, reason := "unresolved at experiment deadline", updatedMs := tsMs)
  }

  /** With distinct ids, forcing the live instances one by one turns exactly them to ERROR. */
  lemma {:induction false} ForcedPrefix(instances: seq<InstanceRecord>, targets: seq<Target>, tsMs: int)
    requires DistinctIds(instances)
    ensures var forced := ForceErrors(instances, targets, tsMs);
            && |forced| == |instances| && DistinctIds(forced)
            && forall k :: 0 <= k < |instances| ==>
                 && forced[k].id == instances[k].id && forced[k].host == instances[k].host
                 && forced[k].abortRequested == instances[k].abortRequested
                 && (instances[k].IsTerminal() ==> forced[k] == instances[k])
                 && (!instances[k].IsTerminal() ==>
                       forced[k] == if Names(targets, instances[k].id) then Unresolved(instances[k], tsMs)
                                    else instances[k])
    decreases |targets|
  {
    if targets != [] {
      var last := |targets| - 1;
      var before := ForceErrors(instances, targets[..last], tsMs);
      ForcedPrefix(instances, targets[..last], tsMs);
      assert targets == targets[..last] + [targets[last]];
      forall id
        ensures Names(targets, id) <==> Names(targets[..last], id) || targets[last].1 == id
      {
        NamesAppend(targets[..last], [targets[last]], id);
        assert Names([targets[last]], id) <==> [targets[last]][0].1 == id;
      }
    }
  }

  predicate Names(targets: seq<Target>, id: InstanceId) {
    exists n :: 0 <= n < |targets| && targets[n].1 == id
  }

  lemma NamesAppend(first: seq<Target>, rest: seq<Target>, id: InstanceId)
    ensures Names(first + rest, id) <==> Names(first, id) || Names(rest, id)
  {
    if Names(first, id) {
      var n :| 0 <= n < |first| && first[n].1 == id;
      assert (first + rest)[n].1 == id;
    }
    if Names(rest, id) {
      var n :| 0 <= n < |rest| && rest[n].1 == id;
      assert (first + rest)[|first| + n].1 == id;
    }
  }

  lemma {:induction false} LiveAreTargets(instances: seq<InstanceRecord>)
    ensures forall k :: 0 <= k < |instances| && !instances[k].IsTerminal() ==>
                          Names(LiveTargets(instances), instances[k].id)
  {
    if instances != [] {
      LiveAreTargets(instances[1..]);
      var first: seq<Target> := if instances[0].IsTerminal() then [] else [(instances[0].host, instances[0].id)];
      var rest := LiveTargets(instances[1..]);
      assert LiveTargets(instances) == first + rest;
      forall k | 0 <= k < |instances| && !instances[k].IsTerminal()
        ensures Names(first + rest, instances[k].id)
      {
        NamesAppend(first, rest, instances[k].id);
        if k == 0 {
          assert first[0].1 == instances[0].id;
        } else {
          assert instances[1..][k - 1] == instances[k];
        }
      }
    }
  }

  /** At its deadline every unconcluded record concludes, as ERROR, with a cause. */
  lemma DeadlineConcludes(e: Experiment, tsMs: int)
    requires RecordInv(e) && !e.phase.Concluded?
    ensures var after := Handle(e, DeadlineExpires(tsMs));
            && RecordInv(after) && after.phase == Concluded(ExperimentOutcome.Error) && after.cause.Some?
            && |after.instances| == |e.instances|
            && forall k :: 0 <= k < |e.instances| ==>
                 after.instances[k] == if e.instances[k].IsTerminal() then e.instances[k]
                                       else Unresolved(e.instances[k], tsMs)
  {
    var targets := LiveTargets(e.instances);
    var forced := ForceErrors(e.instances, targets, tsMs);
    LiveAreTargets(e.instances);
    ForcedPrefix(e.instances, targets, tsMs);
    hide Names, ForceErrors, LiveTargets;
    var k :| 0 <= k < |e.instances| && !e.instances[k].IsTerminal();
    assert forced[k].state.Error?;
    assert SomeIn(forced, InstanceState.Error);
    assert AllTerminal(forced);
  }

  // ----- Every handler -----

  lemma ApplyFacts(instances: seq<InstanceRecord>, id: InstanceId, state: InstanceState, reason: string, tsMs: int)
    requires DistinctIds(instances)
    ensures var after := ApplyStatus(instances, id, state, reason, tsMs);
            && |after| == |instances| && DistinctIds(after)
            && (NoneAsked(instances) ==> NoneAsked(after))
            && forall k :: 0 <= k < |instances| ==>
                 && after[k].id == instances[k].id && after[k].host == instances[k].host
                 && after[k].abortRequested == instances[k].abortRequested
                 && (instances[k].IsTerminal() || instances[k].id != id ==> after[k] == instances[k])
                 && (!instances[k].IsTerminal() && instances[k].id == id ==>
                       after[k] == instances[k].(state := state, reason := reason, updatedMs := tsMs))
  {
  }

  /** No handler breaks the record. */
  lemma HandleKeeps(e: Experiment, m: Message)
    requires RecordInv(e)
    ensures RecordInv(Handle(e, m))
  {
    match m {
      case StatusReport(id, state, reason, ts) =>
        if Accepts(e.instances, id) {
          ApplyFacts(e.instances, id, state, reason, ts);
          assert !e.phase.Concluded?;
          ReactKeeps(e.(instances := ApplyStatus(e.instances, id, state, reason, ts)));
        }
      case TaintReport(host, tainted, reason, ts) =>
        if TaintApplies(e, host, tainted) {
          ReactKeeps(e.(tainted := RecordTaint(e.tainted, host, reason, ts)));
        }
      case OperatorHalts(reason, ts) =>
        if !e.phase.Concluded? {
          AskingKeepsStates(e.instances);
          ConcludeKeeps(FireKillSwitch(e, Cause(None, None, OperatorHalt(reason), ts)));
        }
      case DeadlineExpires(ts) =>
        if !e.phase.Concluded? {
          DeadlineConcludes(e, ts);
        }
    }
  }

  function PhaseRank(phase: ExperimentPhase): nat {
    match phase
    case Running => 0
    case Halting => 1
    case Concluded(_) => 2
  }

  /** The phase only moves forward, a concluded record never changes again, and the first cause stays. */
  lemma HandleMovesForward(e: Experiment, m: Message)
    requires RecordInv(e)
    ensures PhaseRank(Handle(e, m).phase) >= PhaseRank(e.phase)
    ensures e.phase.Concluded? ==> Handle(e, m) == e
    ensures e.cause.Some? ==> Handle(e, m).cause == e.cause
  {
    if e.phase.Concluded? && m.StatusReport? {
      assert AllTerminal(e.instances);
    }
  }

  lemma {:induction false} RunKeepsRecord(e: Experiment, ms: seq<Message>)
    requires RecordInv(e)
    ensures RecordInv(HandleAll(e, ms))
    ensures PhaseRank(HandleAll(e, ms).phase) >= PhaseRank(e.phase)
    ensures e.phase.Concluded? ==> HandleAll(e, ms) == e
    ensures e.cause.Some? ==> HandleAll(e, ms).cause == e.cause
    decreases |ms|
  {
    if ms != [] {
      HandleKeeps(e, ms[0]);
      HandleMovesForward(e, ms[0]);
      RunKeepsRecord(Handle(e, ms[0]), ms[1..]);
    }
  }

  /** Whatever happened to a good record, its deadline finds it concluded or concludes it as ERROR. */
  lemma AlwaysConcludes(e: Experiment, ms: seq<Message>, tsMs: int)
    requires RecordInv(e)
    ensures var before := HandleAll(e, ms);
            var after := Handle(before, DeadlineExpires(tsMs));
            if before.phase.Concluded? then after == before
            else after.phase == Concluded(ExperimentOutcome.Error) && after.cause.Some?
  {
    RunKeepsRecord(e, ms);
    var before := HandleAll(e, ms);
    if !before.phase.Concluded? {
      DeadlineConcludes(before, tsMs);
    }
  }

  /** How a handler can change an instance: only by its own status report, or to ERROR at the deadline. */
  lemma HandleStates(e: Experiment, m: Message)
    requires RecordInv(e)
    ensures |Handle(e, m).instances| == |e.instances|
    ensures forall k :: 0 <= k < |e.instances| ==>
              var was, now := e.instances[k], Handle(e, m).instances[k];
              && now.id == was.id && now.host == was.host
              && (now.state == was.state
                  || (m.StatusReport? && m.id == was.id && now.state == m.state)
                  || (m.DeadlineExpires? && now.state.Error?))
  {
    hide React, RecordInv, ApplyStatus, ForceErrors, LiveTargets;
    match m {
      case StatusReport(id, state, reason, ts) =>
        DistinctInGood(e);
        ApplyFacts(e.instances, id, state, reason, ts);
        ReactKeepsCores(e.(instances := ApplyStatus(e.instances, id, state, reason, ts)));
      case TaintReport(host, tainted, reason, ts) =>
        ReactKeepsCores(e.(tainted := RecordTaint(e.tainted, host, reason, ts)));
      case OperatorHalts(_, _) =>
      case DeadlineExpires(ts) =>
        DistinctInGood(e);
        ForcedPrefix(e.instances, LiveTargets(e.instances), ts);
    }
  }

  lemma DistinctInGood(e: Experiment)
    requires RecordInv(e)
    ensures DistinctIds(e.instances)
  {
  }

  // ----- The kill-switch asks each instance once -----

  predicate Asked(instances: seq<InstanceRecord>, id: InstanceId) {
    exists k :: 0 <= k < |instances| && instances[k].id == id && instances[k].abortRequested
  }

  predicate NoRepeats(targets: seq<Target>) {
    forall j, k :: 0 <= j < k < |targets| ==> targets[j].1 != targets[k].1
  }

  lemma {:induction false} UnaskedFacts(instances: seq<InstanceRecord>)
    requires DistinctIds(instances)
    ensures NoRepeats(UnaskedTargets(instances))
    ensures forall id :: Names(UnaskedTargets(instances), id) <==>
                           exists k :: 0 <= k < |instances| && instances[k].id == id && Unasked(instances[k])
  {
    if instances != [] {
      UnaskedFacts(instances[1..]);
      var first: seq<Target> := if Unasked(instances[0]) then [(instances[0].host, instances[0].id)] else [];
      var rest := UnaskedTargets(instances[1..]);
      assert UnaskedTargets(instances) == first + rest;
      assert forall k :: 0 < k < |instances| ==> instances[k] == instances[1..][k - 1];
      forall id
        ensures Names(first + rest, id) <==> Names(rest, id) || (Unasked(instances[0]) && instances[0].id == id)
      {
        NamesAppend(first, rest, id);
        assert first != [] ==> (Names(first, id) <==> first[0].1 == id);
      }
      if first != [] {
        assert !Names(rest, instances[0].id);
      }
      forall j, k | 0 <= j < k < |first + rest|
        ensures (first + rest)[j].1 != (first + rest)[k].1
      {
        var n := k - |first|;
        assert (first + rest)[k] == rest[n];
        assert first == [] ==> (first + rest)[j] == rest[j];
        assert first != [] && j > 0 ==> (first + rest)[j] == rest[j - 1];
      }
    }
  }

  lemma StaysAsked(instances: seq<InstanceRecord>, id: InstanceId)
    ensures Asked(instances, id) ==> Asked(AskAll(instances), id)
  {
    if Asked(instances, id) {
      var k :| 0 <= k < |instances| && instances[k].id == id && instances[k].abortRequested;
      assert AskAll(instances)[k].abortRequested && AskAll(instances)[k].id == id;
    }
  }

  lemma AskMarks(instances: seq<InstanceRecord>, k: nat)
    requires DistinctIds(instances) && k < |instances| && Unasked(instances[k])
    ensures Asked(AskAll(instances), instances[k].id) && !Asked(instances, instances[k].id)
  {
    assert AskAll(instances)[k].abortRequested && AskAll(instances)[k].id == instances[k].id;
  }

  /** What a handler has made of the instances before the kill-switch looks at them. */
  function Base(e: Experiment, m: Message): seq<InstanceRecord> {
    match m
    case StatusReport(id, state, reason, ts) => ApplyStatus(e.instances, id, state, reason, ts)
    case DeadlineExpires(ts) => ForceErrors(e.instances, LiveTargets(e.instances), ts)
    case _ => e.instances
  }

  lemma BaseAsked(e: Experiment, m: Message)
    requires RecordInv(e)
    ensures DistinctIds(Base(e, m)) && forall id :: Asked(e.instances, id) <==> Asked(Base(e, m), id)
  {
    if m.StatusReport? {
      ApplyFacts(e.instances, m.id, m.state, m.reason, m.tsMs);
    } else if m.DeadlineExpires? {
      ForcedPrefix(e.instances, LiveTargets(e.instances), m.tsMs);
    }
    SameAsked(e.instances, Base(e, m));
  }

  /** A handler leaves the instances as they were then, or asks all the live ones. */
  lemma HandleAsks(e: Experiment, m: Message)
    ensures || (Fired(e, m) == UnaskedTargets(Base(e, m)) && Handle(e, m).instances == AskAll(Base(e, m)))
            || (Fired(e, m) == [] && Handle(e, m).instances in {e.instances, Base(e, m)})
  {
  }

  /** What the kill-switch hands out is new, and is marked as asked. */
  lemma FiredFacts(e: Experiment, m: Message)
    requires RecordInv(e)
    ensures NoRepeats(Fired(e, m))
    ensures forall id :: Names(Fired(e, m), id) ==> !Asked(e.instances, id) && Asked(Handle(e, m).instances, id)
    ensures forall id :: Asked(e.instances, id) ==> Asked(Handle(e, m).instances, id)
  {
    var base := Base(e, m);
    BaseAsked(e, m);
    HandleAsks(e, m);
    UnaskedFacts(base);
    forall id
      ensures Asked(base, id) ==> Asked(AskAll(base), id)
      ensures Names(UnaskedTargets(base), id) ==> Asked(AskAll(base), id) && !Asked(base, id)
    {
      StaysAsked(base, id);
      if Names(UnaskedTargets(base), id) {
        var k :| 0 <= k < |base| && base[k].id == id && Unasked(base[k]);
        AskMarks(base, k);
      }
    }
  }

  lemma SameAsked(a: seq<InstanceRecord>, b: seq<InstanceRecord>)
    requires |a| == |b|
    requires forall k :: 0 <= k < |a| ==> a[k].id == b[k].id && a[k].abortRequested == b[k].abortRequested
    ensures forall id :: Asked(a, id) <==> Asked(b, id)
  {
    forall id
      ensures Asked(a, id) <==> Asked(b, id)
    {
      if Asked(a, id) {
        var k :| 0 <= k < |a| && a[k].id == id && a[k].abortRequested;
        assert b[k].id == id && b[k].abortRequested;
      }
      if Asked(b, id) {
        var k :| 0 <= k < |b| && b[k].id == id && b[k].abortRequested;
        assert a[k].id == id && a[k].abortRequested;
      }
    }
  }

  /** Over a record's whole life the kill-switch hands out each instance id at most once. */
  lemma {:induction false} AsksEachOnce(e: Experiment, ms: seq<Message>)
    requires RecordInv(e)
    ensures NoRepeats(FiredAll(e, ms))
    ensures forall id :: Names(FiredAll(e, ms), id) ==> !Asked(e.instances, id)
    decreases |ms|
  {
    if ms != [] {
      var now: seq<Target>, next := Fired(e, ms[0]), Handle(e, ms[0]);
      FiredFacts(e, ms[0]);
      HandleKeeps(e, ms[0]);
      AsksEachOnce(next, ms[1..]);
      var later: seq<Target> := FiredAll(next, ms[1..]);
      forall j, k | 0 <= j < k < |now + later|
        ensures (now + later)[j].1 != (now + later)[k].1
      {
        if j < |now| <= k {
          assert Names(now, now[j].1);
          assert Names(later, later[k - |now|].1);
        }
      }
      forall id | Names(now + later, id)
        ensures !Asked(e.instances, id)
      {
        NamesAppend(now, later, id);
      }
    }
  }

  // ----- Order independence -----

  /** What a status report leaves in an instance record. */
  datatype Core = Core(state: InstanceState, reason: string, updatedMs: int)

  function CoreOf(i: InstanceRecord): Core {
    Core(i.state, i.reason, i.updatedMs)
  }

  predicate OnlyStatuses(ms: seq<Message>) {
    forall k :: 0 <= k < |ms| ==> ms[k].StatusReport?
  }

  /** The reports of one instance, in their order. */
  function ReportsOf(ms: seq<Message>, id: InstanceId): seq<Core> {
    if ms == [] then []
    else (if ms[0].StatusReport? && ms[0].id == id then [Core(ms[0].state, ms[0].reason, ms[0].tsMs)] else [])
         + ReportsOf(ms[1..], id)
  }

  /** One instance alone: the first terminal report absorbs. */
  function Absorb(core: Core, reports: seq<Core>): Core
    decreases |reports|
  {
    if reports == [] || core.state.IsTerminal() then core else Absorb(reports[0], reports[1..])
  }

  /** The phase that the instance states alone decide. */
  function PhaseOf(instances: seq<InstanceRecord>): ExperimentPhase {
    if AllTerminal(instances) then Concluded(Outcome(instances, []).value)
    else if SomeIn(instances, InstanceState.Error) || SomeIn(instances, InstanceState.Aborted) then Halting
    else Running
  }

  /** No taint so far, and the phase follows from the states. */
  predicate Synced(e: Experiment) {
    RecordInv(e) && e.tainted == [] && e.phase == PhaseOf(e.instances)
  }

  lemma TriggersAreBadStates(instances: seq<InstanceRecord>)
    requires NoneAsked(instances)
    ensures FirstTrigger(instances).Some? <==>
            SomeIn(instances, InstanceState.Error) || SomeIn(instances, InstanceState.Aborted)
  {
    TriggerIff(instances);
    if FirstTrigger(instances).Some? {
      var k :| 0 <= k < |instances| && Triggers(instances[k]);
      assert instances[k].state == InstanceState.Error || instances[k].state == InstanceState.Aborted;
    }
    if SomeIn(instances, InstanceState.Error) {
      var k :| 0 <= k < |instances| && instances[k].state == InstanceState.Error;
      assert Triggers(instances[k]);
    }
    if SomeIn(instances, InstanceState.Aborted) {
      var k :| 0 <= k < |instances| && instances[k].state == InstanceState.Aborted;
      assert Triggers(instances[k]);
    }
  }

  lemma BadStatesStay(before: seq<InstanceRecord>, after: seq<InstanceRecord>)
    requires |before| == |after|
    requires forall k :: 0 <= k < |before| && before[k].IsTerminal() ==> after[k].state == before[k].state
    ensures SomeIn(before, InstanceState.Error) ==> SomeIn(after, InstanceState.Error)
    ensures SomeIn(before, InstanceState.Aborted) ==> SomeIn(after, InstanceState.Aborted)
  {
    if SomeIn(before, InstanceState.Error) {
      var k :| 0 <= k < |before| && before[k].state == InstanceState.Error;
      assert after[k].state == InstanceState.Error;
    }
    if SomeIn(before, InstanceState.Aborted) {
      var k :| 0 <= k < |before| && before[k].state == InstanceState.Aborted;
      assert after[k].state == InstanceState.Aborted;
    }
  }

  lemma ReactKeepsCores(e: Experiment)
    ensures React(e).tainted == e.tainted && |React(e).instances| == |e.instances|
    ensures forall k :: 0 <= k < |e.instances| ==>
                          && CoreOf(React(e).instances[k]) == CoreOf(e.instances[k])
                          && React(e).instances[k].id == e.instances[k].id
                          && React(e).instances[k].host == e.instances[k].host
  {
  }

  lemma ReactSyncs(e: Experiment)
    requires DistinctIds(e.instances) && e.tainted == [] && !e.phase.Concluded?
    requires e.phase.Halting? ==>
               (SomeIn(e.instances, InstanceState.Error) || SomeIn(e.instances, InstanceState.Aborted))
    requires e.phase.Running? ==> NoneAsked(e.instances)
    ensures React(e).phase == PhaseOf(React(e).instances)
  {
    AskingKeepsStates(e.instances);
    if e.phase.Running? {
      TriggersAreBadStates(e.instances);
    }
  }

  lemma StatusKeepsSync(e: Experiment, m: Message)
    requires Synced(e) && m.StatusReport?
    ensures Synced(Handle(e, m)) && |Handle(e, m).instances| == |e.instances|
    ensures forall k :: 0 <= k < |e.instances| ==>
              && Handle(e, m).instances[k].id == e.instances[k].id
              && CoreOf(Handle(e, m).instances[k])
                 == CoreOf(ApplyStatus(e.instances, m.id, m.state, m.reason, m.tsMs)[k])
  {
    HandleKeeps(e, m);
    if Accepts(e.instances, m.id) {
      ApplyFacts(e.instances, m.id, m.state, m.reason, m.tsMs);
      var applied := e.(instances := ApplyStatus(e.instances, m.id, m.state, m.reason, m.tsMs));
      BadStatesStay(e.instances, applied.instances);
      ReactSyncs(applied);
      ReactKeepsCores(applied);
    }
  }

  lemma AppliedCore(instances: seq<InstanceRecord>, m: Message, k: nat)
    requires DistinctIds(instances) && m.StatusReport? && k < |instances|
    ensures |ApplyStatus(instances, m.id, m.state, m.reason, m.tsMs)| == |instances|
    ensures CoreOf(ApplyStatus(instances, m.id, m.state, m.reason, m.tsMs)[k])
            == Absorb(CoreOf(instances[k]), ReportsOf([m], instances[k].id))
  {
    assert [m][1..] == [];
    assert ReportsOf([m], instances[k].id) ==
           if m.id == instances[k].id then [Core(m.state, m.reason, m.tsMs)] else [];
  }

  lemma StatusSyncs(e: Experiment, m: Message)
    requires Synced(e) && m.StatusReport?
    ensures Synced(Handle(e, m)) && Follow(e, Handle(e, m), [m])
  {
    StatusKeepsSync(e, m);
    forall k | 0 <= k < |e.instances|
      ensures CoreOf(Handle(e, m).instances[k]) == Absorb(CoreOf(e.instances[k]), ReportsOf([m], e.instances[k].id))
    {
      AppliedCore(e.instances, m, k);
    }
  }

  lemma AbsorbAppend(core: Core, a: seq<Core>, b: seq<Core>)
    ensures Absorb(Absorb(core, a), b) == Absorb(core, a + b)
    decreases |a|
  {
    if a == [] || core.state.IsTerminal() {
      assert [] + b == b;
    } else {
      assert (a + b)[1..] == a[1..] + b;
      AbsorbAppend(a[0], a[1..], b);
    }
  }

  /** The first report of an instance, and then the rest. */
  lemma AbsorbFirst(core: Core, ms: seq<Message>, id: InstanceId)
    requires ms != []
    ensures Absorb(Absorb(core, ReportsOf([ms[0]], id)), ReportsOf(ms[1..], id)) == Absorb(core, ReportsOf(ms, id))
  {
    AbsorbAppend(core, ReportsOf([ms[0]], id), ReportsOf(ms[1..], id));
    assert [ms[0]][1..] == [];
    assert ReportsOf([ms[0]], id) + ReportsOf(ms[1..], id) == ReportsOf(ms, id);
  }

  /** From `e` to `f` each instance went where its own reports in `ms`, taken alone, lead it. */
  predicate Follow(e: Experiment, f: Experiment, ms: seq<Message>) {
    && |f.instances| == |e.instances|
    && forall k :: 0 <= k < |e.instances| ==>
         && f.instances[k].id == e.instances[k].id
         && CoreOf(f.instances[k]) == Absorb(CoreOf(e.instances[k]), ReportsOf(ms, e.instances[k].id))
  }

  lemma FollowOn(e: Experiment, next: Experiment, f: Experiment, ms: seq<Message>)
    requires ms != [] && Follow(e, next, [ms[0]]) && Follow(next, f, ms[1..])
    ensures Follow(e, f, ms)
  {
    hide Absorb, ReportsOf;
    forall k | 0 <= k < |e.instances|
      ensures f.instances[k].id == e.instances[k].id
      ensures CoreOf(f.instances[k]) == Absorb(CoreOf(e.instances[k]), ReportsOf(ms, e.instances[k].id))
    {
      assert next.instances[k].id == e.instances[k].id;
      AbsorbFirst(CoreOf(e.instances[k]), ms, e.instances[k].id);
    }
  }

  lemma StatusesGoOn(ms: seq<Message>)
    requires OnlyStatuses(ms) && ms != []
    ensures ms[0].StatusReport? && OnlyStatuses(ms[1..])
  {
    assert forall k :: 0 <= k < |ms[1..]| ==> ms[1..][k] == ms[k + 1];
  }

  /** After any sequence of status reports each instance is where its own reports, taken alone, lead
      it, and the phase is the one these states decide. */
  lemma {:induction false} StatusesDecideAlone(e: Experiment, ms: seq<Message>)
    requires Synced(e) && OnlyStatuses(ms)
    ensures Synced(HandleAll(e, ms)) && Follow(e, HandleAll(e, ms), ms)
    decreases |ms|
  {
    if ms != [] {
      hide Synced, Handle, Follow, OnlyStatuses;
      StatusesGoOn(ms);
      StatusSyncs(e, ms[0]);
      StatusesDecideAlone(Handle(e, ms[0]), ms[1..]);
      FollowOn(e, Handle(e, ms[0]), HandleAll(e, ms), ms);
    }
  }

  /** The verdict does not depend on the order in which different instances' reports arrive. */
  lemma OrderDoesNotMatter(e: Experiment, ms: seq<Message>, ns: seq<Message>)
    requires Synced(e) && OnlyStatuses(ms) && OnlyStatuses(ns)
    requires forall k :: 0 <= k < |e.instances| ==> ReportsOf(ms, e.instances[k].id) == ReportsOf(ns, e.instances[k].id)
    ensures var a, b := HandleAll(e, ms), HandleAll(e, ns);
            && |a.instances| == |b.instances|
            && (forall k :: 0 <= k < |a.instances| ==> CoreOf(a.instances[k]) == CoreOf(b.instances[k]))
            && a.phase == b.phase
  {
    StatusesDecideAlone(e, ms);
    StatusesDecideAlone(e, ns);
    var a, b := HandleAll(e, ms).instances, HandleAll(e, ns).instances;
    assert forall k :: 0 <= k < |a| ==> CoreOf(a[k]) == CoreOf(b[k]);
    assert forall k :: 0 <= k < |a| ==> a[k].state == CoreOf(a[k]).state && b[k].state == CoreOf(b[k]).state;
    SameStatesSamePhase(a, b);
  }

  lemma SameStatesSamePhase(a: seq<InstanceRecord>, b: seq<InstanceRecord>)
    requires |a| == |b| && forall k :: 0 <= k < |a| ==> a[k].state == b[k].state
    ensures PhaseOf(a) == PhaseOf(b)
  {
    forall state
      ensures SomeIn(a, state) <==> SomeIn(b, state)
    {
      if SomeIn(a, state) {
        var k :| 0 <= k < |a| && a[k].state == state;
        assert b[k].state == state;
      }
      if SomeIn(b, state) {
        var k :| 0 <= k < |b| && b[k].state == state;
        assert a[k].state == state;
      }
    }
    assert AllTerminal(a) <==> AllTerminal(b);
    assert AllIn(a, InstanceState.Done) <==> AllIn(b, InstanceState.Done);
  }
}
