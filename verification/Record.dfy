/** The master's record of one experiment, as a value, and what each handler makes of it. The class in
    Dispatch updates its fields in place and is proved against these functions. */
module Record {
  import opened Lifecycle

  datatype InstanceRecord = InstanceRecord(
    id: InstanceId,
    host: string,
    action: nat,
    state: InstanceState,
    reason: string,
    updatedMs: int,
    abortRequested: bool)
  {
    predicate IsTerminal() {
      state.IsTerminal()
    }
  }

  datatype CauseReason =
    | InstanceError(text: string)
    | AgentAbort(text: string)
    | InstanceAborted(text: string)
    | HostTainted(text: string)
    | OperatorHalt(text: string)
    | UnresolvedAtDeadline

  datatype Cause = Cause(host: Option<string>, instance: Option<InstanceId>, reason: CauseReason, tsMs: int)

  datatype ExperimentOutcome = Completed | Aborted | Error

  datatype ExperimentPhase = Running | Halting | Concluded(outcome: ExperimentOutcome)

  datatype TaintedHost = TaintedHost(host: string, reason: string, tsMs: int)

  datatype Experiment = Experiment(
    phase: ExperimentPhase,
    instances: seq<InstanceRecord>,
    tainted: seq<TaintedHost>,
    cause: Option<Cause>)

  /** An abort to send once the store lock is released. */
  type Target = (string, InstanceId)

  // ----- Record updates -----

  /** The first record of `id`, or the length if there is none. */
  function IndexOf(instances: seq<InstanceRecord>, id: InstanceId): (k: nat)
    ensures k <= |instances|
    ensures k < |instances| ==> instances[k].id == id
    ensures forall j :: 0 <= j < k ==> instances[j].id != id
  {
    if instances == [] || instances[0].id == id then 0 else 1 + IndexOf(instances[1..], id)
  }

  /** Whether a status for `id` changes the record: it is known and not terminal. */
  predicate Accepts(instances: seq<InstanceRecord>, id: InstanceId) {
    IndexOf(instances, id) < |instances| && !instances[IndexOf(instances, id)].IsTerminal()
  }

  /** Terminal states absorb; anything else is overwritten by the report. */
  function ApplyStatus(instances: seq<InstanceRecord>, id: InstanceId, state: InstanceState, reason: string, tsMs: int)
    : seq<InstanceRecord>
  {
    if Accepts(instances, id) then
      var k := IndexOf(instances, id);
      instances[k := instances[k].(state := state, reason := reason, updatedMs := tsMs)]
    else instances
  }

  predicate Targets(e: Experiment, host: string) {
    exists k :: 0 <= k < |e.instances| && e.instances[k].host == host
  }

  predicate KnownTainted(tainted: seq<TaintedHost>, host: string) {
    exists k :: 0 <= k < |tainted| && tainted[k].host == host
  }

  function RecordTaint(tainted: seq<TaintedHost>, host: string, reason: string, tsMs: int): seq<TaintedHost> {
    if KnownTainted(tainted, host) then tainted else tainted + [TaintedHost(host, reason, tsMs)]
  }

  // ----- The pure core -----

  /** The first ERROR, or the first ABORTED that the master did not request. */
  predicate Triggers(i: InstanceRecord) {
    i.state.Error? || (i.state.Aborted? && !i.abortRequested)
  }

  function InstanceCause(i: InstanceRecord, reason: CauseReason): Cause {
    Cause(Some(i.host), Some(i.id), reason, i.updatedMs)
  }

  function TaintCause(tainted: seq<TaintedHost>): Option<Cause> {
    if tainted == [] then None
    else Some(Cause(Some(tainted[0].host), None, HostTainted(tainted[0].reason), tainted[0].tsMs))
  }

  function FirstTrigger(instances: seq<InstanceRecord>): Option<Cause> {
    if instances == [] then None
    else if instances[0].state.Error? then Some(InstanceCause(instances[0], InstanceError(instances[0].reason)))
    else if Triggers(instances[0]) then Some(InstanceCause(instances[0], AgentAbort(instances[0].reason)))
    else FirstTrigger(instances[1..])
  }

  function KillTrigger(e: Experiment): Option<Cause> {
    if !e.phase.Running? then None
    else if FirstTrigger(e.instances).Some? then FirstTrigger(e.instances)
    else TaintCause(e.tainted)
  }

  predicate AllTerminal(instances: seq<InstanceRecord>) {
    forall k :: 0 <= k < |instances| ==> instances[k].IsTerminal()
  }

  predicate SomeIn(instances: seq<InstanceRecord>, state: InstanceState) {
    exists k :: 0 <= k < |instances| && instances[k].state == state
  }

  predicate AllIn(instances: seq<InstanceRecord>, state: InstanceState) {
    forall k :: 0 <= k < |instances| ==> instances[k].state == state
  }

  /** ERROR dominates ABORTED; COMPLETED needs every instance DONE and no taint. */
  function Outcome(instances: seq<InstanceRecord>, tainted: seq<TaintedHost>): Option<ExperimentOutcome> {
    if !AllTerminal(instances) then None
    else if SomeIn(instances, InstanceState.Error) || tainted != [] then Some(ExperimentOutcome.Error)
    else if AllIn(instances, InstanceState.Done) then Some(ExperimentOutcome.Completed)
    else Some(ExperimentOutcome.Aborted)
  }

  /** The cause naming the first instance in `state`. */
  function FirstIn(instances: seq<InstanceRecord>, state: InstanceState): (cause: Option<Cause>)
    ensures cause.Some? <==> SomeIn(instances, state)
  {
    if instances == [] then None
    else if instances[0].state == state then
      Some(InstanceCause(instances[0], if state.Error? then InstanceError(instances[0].reason)
                                       else InstanceAborted(instances[0].reason)))
    else
      assert SomeIn(instances, state) <==> SomeIn(instances[1..], state) by {
        if SomeIn(instances, state) {
          var k :| 0 <= k < |instances| && instances[k].state == state;
          assert instances[1..][k - 1].state == state;
        }
      }
      FirstIn(instances[1..], state)
  }

  function OutcomeCause(e: Experiment, outcome: ExperimentOutcome): Option<Cause> {
    match outcome
    case Completed => None
    case Error =>
      var named := FirstIn(e.instances, InstanceState.Error);
      if named.Some? then named else TaintCause(e.tainted)
    case Aborted => FirstIn(e.instances, InstanceState.Aborted)
  }

  // ----- The kill-switch -----

  predicate Unasked(i: InstanceRecord) {
    !i.IsTerminal() && !i.abortRequested
  }

  /** Every live instance not yet asked to abort, in record order. */
  function UnaskedTargets(instances: seq<InstanceRecord>): seq<Target> {
    if instances == [] then []
    else (if Unasked(instances[0]) then [(instances[0].host, instances[0].id)] else []) + UnaskedTargets(instances[1..])
  }

  function Ask(i: InstanceRecord): InstanceRecord {
    i.(abortRequested := i.abortRequested || Unasked(i))
  }

  function AskAll(instances: seq<InstanceRecord>): (asked: seq<InstanceRecord>)
    ensures |asked| == |instances|
    ensures forall k :: 0 <= k < |asked| ==> asked[k] == Ask(instances[k])
  {
    if instances == [] then [] else [Ask(instances[0])] + AskAll(instances[1..])
  }

  function FireKillSwitch(e: Experiment, cause: Cause): Experiment {
    if e.phase.Concluded? then e
    else e.(phase := Halting, instances := AskAll(e.instances), cause := if e.cause.None? then Some(cause) else e.cause)
  }

  function ConcludeIfDone(e: Experiment): Experiment {
    var outcome := Outcome(e.instances, e.tainted);
    if e.phase.Concluded? || outcome.None? then e
    else e.(phase := Concluded(outcome.value),
            cause := if e.cause.None? then OutcomeCause(e, outcome.value) else e.cause)
  }

  function React(e: Experiment): Experiment {
    ConcludeIfDone(if KillTrigger(e).Some? then FireKillSwitch(e, KillTrigger(e).value) else e)
  }

  /** The aborts `React` hands out. */
  function ReactAborts(e: Experiment): seq<Target> {
    if KillTrigger(e).Some? then UnaskedTargets(e.instances) else []
  }

  // ----- Handlers -----

  datatype Message =
    | StatusReport(id: InstanceId, state: InstanceState, reason: string, tsMs: int)
    | TaintReport(host: string, tainted: bool, reason: string, tsMs: int)
    | OperatorHalts(reason: string, tsMs: int)
    | DeadlineExpires(tsMs: int)

  function LiveTargets(instances: seq<InstanceRecord>): seq<Target> {
    if instances == [] then []
    else
      var first: seq<Target> := if instances[0].IsTerminal() then [] else [(instances[0].host, instances[0].id)];
      first + LiveTargets(instances[1..])
  }

  /** Mark every listed instance ERROR, one status at a time. */
  function ForceErrors(instances: seq<InstanceRecord>, targets: seq<Target>, tsMs: int): seq<InstanceRecord> {
    if targets == [] then instances
    else
      var before := ForceErrors(instances, targets[..|targets| - 1], tsMs);
      ApplyStatus(before, targets[|targets| - 1].1, InstanceState.Error, "unresolved at experiment deadline", tsMs)
  }

  function DeadlineCause(targets: seq<Target>, tsMs: int): Option<Cause> {
    if targets == [] then None else Some(Cause(Some(targets[0].0), Some(targets[0].1), UnresolvedAtDeadline, tsMs))
  }

  /** The taint concerns this experiment. */
  predicate TaintApplies(e: Experiment, host: string, tainted: bool) {
    tainted && !e.phase.Concluded? && Targets(e, host)
  }

  function Handle(e: Experiment, m: Message): Experiment {
    match m
    case StatusReport(id, state, reason, ts) =>
      if Accepts(e.instances, id) then React(e.(instances := ApplyStatus(e.instances, id, state, reason, ts))) else e
    case TaintReport(host, tainted, reason, ts) =>
      if TaintApplies(e, host, tainted) then React(e.(tainted := RecordTaint(e.tainted, host, reason, ts))) else e
    case OperatorHalts(reason, ts) =>
      if e.phase.Concluded? then e
      else ConcludeIfDone(FireKillSwitch(e, Cause(None, None, OperatorHalt(reason), ts)))
    case DeadlineExpires(ts) =>
      if e.phase.Concluded? then e
      else
        var targets := LiveTargets(e.instances);
        ConcludeIfDone(e.(cause := if e.cause.None? then DeadlineCause(targets, ts) else e.cause,
                          instances := ForceErrors(e.instances, targets, ts)))
  }

  /** What the kill-switch hands out while handling `m`. */
  function Fired(e: Experiment, m: Message): seq<Target> {
    match m
    case StatusReport(id, state, reason, ts) =>
      if !Accepts(e.instances, id) then []
      else ReactAborts(e.(instances := ApplyStatus(e.instances, id, state, reason, ts)))
    case TaintReport(host, tainted, reason, ts) =>
      if !TaintApplies(e, host, tainted) then []
      else ReactAborts(e.(tainted := RecordTaint(e.tainted, host, reason, ts)))
    case OperatorHalts(_, _) => if e.phase.Concluded? then [] else UnaskedTargets(e.instances)
    case DeadlineExpires(_) => []
  }

  function HandleAll(e: Experiment, ms: seq<Message>): Experiment
    decreases |ms|
  {
    if ms == [] then e else HandleAll(Handle(e, ms[0]), ms[1..])
  }

  function FiredAll(e: Experiment, ms: seq<Message>): seq<Target>
    decreases |ms|
  {
    if ms == [] then [] else Fired(e, ms[0]) + FiredAll(Handle(e, ms[0]), ms[1..])
  }
}
