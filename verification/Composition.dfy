/** One experiment end to end: the master's record, any number of agents, and a network that may drop,
    delay, reorder or duplicate status frames, but never forges them. Taint frames, operator halts and
    the deadline may come at any time, and the agents serve any number of other experiments besides. A
    RunFault of this experiment goes to the host of its instance and is consumed at most once. */
module Composition {
  import opened Lifecycle
  import R = Record
  import RR = RecordRuns
  import opened AgentSystem

  datatype System = System(record: R.Experiment, agents: map<string, Agent>)

  datatype Step =
    | AgentActs(host: string, act: Action)
    | DeliverStatus(host: string, id: InstanceId, state: InstanceState, reason: string, tsMs: int)
    | MasterHears(message: R.Message)

  /** The record holds an instance `id` for `host`. */
  predicate Dispatched(instances: seq<R.InstanceRecord>, host: string, id: InstanceId) {
    exists k :: 0 <= k < |instances| && instances[k].id == id && instances[k].host == host
  }

  /** The id belongs to this experiment. */
  predicate Ours(instances: seq<R.InstanceRecord>, id: InstanceId) {
    exists k :: 0 <= k < |instances| && instances[k].id == id
  }

  predicate CanStep(s: System, step: Step) {
    match step
    case AgentActs(host, act) =>
      && host in s.agents && CanAct(s.agents[host], act)
      && (act.RunFault? && Ours(s.record.instances, act.id) ==>
            Dispatched(s.record.instances, host, act.id) && act.id !in s.agents[host].accepted)
    case DeliverStatus(host, id, state, _, _) => host in s.agents && (id, state) in s.agents[host].sent
    case MasterHears(message) => !message.StatusReport?
  }

  function Take(s: System, step: Step): System
    requires CanStep(s, step)
  {
    match step
    case AgentActs(host, act) => s.(agents := s.agents[host := Act(s.agents[host], act)])
    case DeliverStatus(_, id, state, reason, ts) =>
      s.(record := R.Handle(s.record, R.StatusReport(id, state, reason, ts)))
    case MasterHears(message) => s.(record := R.Handle(s.record, message))
  }

  // ----- The joint invariant -----

  predicate AgentOk(a: Agent, instances: seq<R.InstanceRecord>) {
    AgentInv(a) && forall k :: 0 <= k < |instances| ==> instances[k].id !in a.readmitted
  }

  predicate AgentsOk(s: System) {
    forall host :: host in s.agents ==> AgentOk(s.agents[host], s.record.instances)
  }

  predicate OnlyDispatched(s: System) {
    forall host, id :: host in s.agents && id in s.agents[host].accepted && Ours(s.record.instances, id) ==>
                         Dispatched(s.record.instances, host, id)
  }

  /** A clean ending in the record was sent by the agent of that host. */
  predicate Grounded(i: R.InstanceRecord, agents: map<string, Agent>) {
    i.state.Done? || i.state.Aborted? ==> i.host in agents && (i.id, i.state) in agents[i.host].sent
  }

  predicate SystemInv(s: System) {
    && RR.RecordInv(s.record) && AgentsOk(s) && OnlyDispatched(s)
    && forall k :: 0 <= k < |s.record.instances| ==> Grounded(s.record.instances[k], s.agents)
  }

  lemma ActFacts(a: Agent, act: Action)
    requires CanAct(a, act)
    ensures a.sent <= Act(a, act).sent
    ensures Act(a, act).accepted <= a.accepted + if act.RunFault? then {act.id} else {}
    ensures Act(a, act).readmitted <= a.readmitted + if act.RunFault? && act.id in a.accepted then {act.id} else {}
  {
  }

  lemma AgentStepKeeps(s: System, host: string, act: Action)
    requires SystemInv(s) && CanStep(s, AgentActs(host, act))
    ensures SystemInv(Take(s, AgentActs(host, act)))
  {
    hide AgentInv, Act, CanAct, RR.RecordInv;
    var a := s.agents[host];
    var t := Take(s, AgentActs(host, act));
    ActKeeps(a, act);
    ActFacts(a, act);
    forall h, id | h in t.agents && id in t.agents[h].accepted && Ours(t.record.instances, id)
      ensures Dispatched(t.record.instances, h, id)
    {
      assert h == host && id !in a.accepted ==> act.RunFault? && id == act.id;
      assert id in s.agents[h].accepted || Dispatched(s.record.instances, host, act.id);
    }
    forall k | 0 <= k < |t.record.instances|
      ensures t.record.instances[k].id !in t.agents[host].readmitted
    {
      assert Ours(s.record.instances, t.record.instances[k].id);
    }
    forall k | 0 <= k < |t.record.instances|
      ensures Grounded(t.record.instances[k], t.agents)
    {
      assert Grounded(s.record.instances[k], s.agents);
    }
  }

  lemma DistinctIdsOf(s: System)
    requires SystemInv(s)
    ensures RR.DistinctIds(s.record.instances)
  {
  }

  lemma MasterStepKeeps(s: System, m: R.Message)
    requires SystemInv(s)
    requires m.StatusReport? ==> exists host :: host in s.agents && (m.id, m.state) in s.agents[host].sent
    ensures SystemInv(s.(record := R.Handle(s.record, m)))
  {
    hide AgentInv, RR.RecordInv, R.Handle;
    var t := s.(record := R.Handle(s.record, m));
    DistinctIdsOf(s);
    RR.HandleKeeps(s.record, m);
    RR.HandleStates(s.record, m);
    var was, now := s.record.instances, t.record.instances;
    forall host, id | host in s.agents && id in s.agents[host].accepted && Ours(now, id)
      ensures Dispatched(now, host, id)
    {
      var n :| 0 <= n < |now| && now[n].id == id;
      assert was[n].id == id;
      assert Dispatched(was, host, id);
      var k :| 0 <= k < |was| && was[k].id == id && was[k].host == host;
      assert now[k].id == id && now[k].host == host;
    }
    forall k | 0 <= k < |now|
      ensures Grounded(now[k], t.agents)
    {
      assert Grounded(was[k], s.agents);
      if m.StatusReport? && m.id == was[k].id && now[k].state == m.state {
        var host :| host in s.agents && (m.id, m.state) in s.agents[host].sent;
        SentFromItsHost(s, host, m.id, m.state, k);
      }
    }
  }

  /** A status of the record's k-th instance can only have been sent by the agent of its host. */
  lemma SentFromItsHost(s: System, host: string, id: InstanceId, state: InstanceState, k: nat)
    requires SystemInv(s) && host in s.agents && (id, state) in s.agents[host].sent
    requires k < |s.record.instances| && s.record.instances[k].id == id
    ensures host == s.record.instances[k].host
  {
    assert AgentInv(s.agents[host]);
    assert (id, state).0 in s.agents[host].accepted;
    assert Ours(s.record.instances, id);
    assert Dispatched(s.record.instances, host, id);
    var j :| 0 <= j < |s.record.instances| && s.record.instances[j].id == id && s.record.instances[j].host == host;
    assert j == k;
  }

  lemma StepKeeps(s: System, step: Step)
    requires SystemInv(s) && CanStep(s, step)
    ensures SystemInv(Take(s, step))
  {
    match step {
      case AgentActs(host, act) => AgentStepKeeps(s, host, act);
      case DeliverStatus(host, id, state, reason, ts) => MasterStepKeeps(s, R.StatusReport(id, state, reason, ts));
      case MasterHears(message) => MasterStepKeeps(s, message);
    }
  }

  // ----- Runs -----

  predicate Runs(s: System, steps: seq<Step>)
    decreases |steps|
  {
    steps == [] || (CanStep(s, steps[0]) && Runs(Take(s, steps[0]), steps[1..]))
  }

  function RunSystem(s: System, steps: seq<Step>): System
    requires Runs(s, steps)
    decreases |steps|
  {
    if steps == [] then s else RunSystem(Take(s, steps[0]), steps[1..])
  }

  lemma {:induction false} RunSystemKeeps(s: System, steps: seq<Step>)
    requires SystemInv(s) && Runs(s, steps)
    ensures SystemInv(RunSystem(s, steps))
    decreases |steps|
  {
    if steps != [] {
      StepKeeps(s, steps[0]);
      RunSystemKeeps(Take(s, steps[0]), steps[1..]);
    }
  }

  /** A record as minted (distinct ids, everything PENDING), and agents with any past of their own
      that never heard of it. */
  predicate Start(s: System) {
    && RR.RecordInv(s.record) && s.record.phase.Running?
    && (forall k :: 0 <= k < |s.record.instances| ==> s.record.instances[k].state.Pending?)
    && (forall host :: host in s.agents ==> NeverHeard(s.agents[host], s.record.instances))
  }

  predicate NeverHeard(a: Agent, instances: seq<R.InstanceRecord>) {
    AgentInv(a) && forall k :: 0 <= k < |instances| ==> instances[k].id !in a.accepted + a.readmitted
  }

  lemma StartKeeps(s: System)
    requires Start(s)
    ensures SystemInv(s)
  {
    forall host, id | host in s.agents && id in s.agents[host].accepted
      ensures !Ours(s.record.instances, id)
    {
      assert NeverHeard(s.agents[host], s.record.instances);
    }
  }

  /** The payoff. Over every run of the master, the agents and the network: a COMPLETED or ABORTED
      experiment left no instance's fault on its host, and a COMPLETED one heard DONE from the agent of
      every instance. */
  lemma CleanVerdictIsTrue(s: System, steps: seq<Step>)
    requires Start(s) && Runs(s, steps)
    ensures var t := RunSystem(s, steps);
            t.record.phase.Concluded? && !t.record.phase.outcome.Error? ==>
              forall k :: 0 <= k < |t.record.instances| ==>
                var i := t.record.instances[k];
                && i.host in t.agents && i.id !in t.agents[i.host].dirty
                && (t.record.phase.outcome.Completed? ==> (i.id, InstanceState.Done) in t.agents[i.host].sent)
  {
    StartKeeps(s);
    RunSystemKeeps(s, steps);
    var t := RunSystem(s, steps);
    if t.record.phase.Concluded? && !t.record.phase.outcome.Error? {
      forall k | 0 <= k < |t.record.instances|
        ensures var i := t.record.instances[k];
                && i.host in t.agents && i.id !in t.agents[i.host].dirty
                && (t.record.phase.outcome.Completed? ==> (i.id, InstanceState.Done) in t.agents[i.host].sent)
      {
        var i := t.record.instances[k];
        assert i.IsTerminal() && i.state != InstanceState.Error;
        assert Grounded(i, t.agents);
        var a := t.agents[i.host];
        assert (i.id, i.state).0 in a.accepted;
        assert ReportedClean(a, i.id);
      }
    }
  }

  /** Seen from the host: if the experiment has concluded while some instance's fault may still be on
      its host, the outcome is ERROR. */
  lemma OnlyErrorHidesAFault(s: System, steps: seq<Step>, k: nat)
    requires Start(s) && Runs(s, steps)
    requires RunSystem(s, steps).record.phase.Concluded? && k < |RunSystem(s, steps).record.instances|
    requires var t := RunSystem(s, steps);
             var i := t.record.instances[k];
             i.host in t.agents && i.id in t.agents[i.host].dirty
    ensures RunSystem(s, steps).record.phase.outcome.Error?
  {
    CleanVerdictIsTrue(s, steps);
  }
}
