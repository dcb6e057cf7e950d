/** From an accepted definition to the record and the salvo of RunFault frames, and what the agents
    will make of those frames. */
module Experiments {
  import opened Lifecycle
  import opened Charset
  import opened Hostnames
  import opened Validation
  import opened Minting
  import R = Record
  import RR = RecordRuns
  import D = Drivers
  import C = Composition
  import A = AgentSystem

  datatype Minted = Minted(
    id: ExperimentId,
    definition: Definition,
    graceSecs: nat,
    startedMs: int,
    deadlineMs: int,
    record: R.Experiment)

  // ----- Minting -----

  function PendingInstance(id: ExperimentId, host: string, action: nat, nowMs: int): R.InstanceRecord {
    R.InstanceRecord(InstanceIdOf(id, host, action), host, action, InstanceState.Pending, "", nowMs, false)
  }

  /** The instances of one action, one per target that parses. */
  function ActionInstances(id: ExperimentId, hosts: seq<string>, action: nat, nowMs: int): seq<R.InstanceRecord> {
    if hosts == [] then []
    else
      var last := Parse(hosts[|hosts| - 1]);
      ActionInstances(id, hosts[..|hosts| - 1], action, nowMs)
      + if last.Parsed? then [PendingInstance(id, last.name, action, nowMs)] else []
  }

  function Instances(id: ExperimentId, definition: Definition, nowMs: int): seq<R.InstanceRecord> {
    if definition == [] then []
    else
      var last := |definition| - 1;
      Instances(id, definition[..last], nowMs) + ActionInstances(id, definition[last].hosts, last, nowMs)
  }

  /** The longest duration plus grace of any action. */
  function MaxWindowSecs(definition: Definition, graceSecs: nat): nat {
    if definition == [] then 0
    else
      var (first, rest) := (definition[0].durationSecs + graceSecs, MaxWindowSecs(definition[1..], graceSecs));
      if first > rest then first else rest
  }

  function DeadlineMs(definition: Definition, graceSecs: nat, nowMs: int, marginMs: int): int {
    nowMs + MaxWindowSecs(definition, graceSecs) * 1000 + marginMs
  }

  function MintedFor(id: ExperimentId, definition: Definition, graceSecs: nat, nowMs: int, marginMs: int): Minted {
    Minted(id, definition, graceSecs, nowMs, DeadlineMs(definition, graceSecs, nowMs, marginMs),
           R.Experiment(R.Running, Instances(id, definition, nowMs), [], None))
  }

  method MintExperiment(id: ExperimentId, definition: Definition, graceSecs: nat, nowMs: int, marginMs: int)
    returns (m: Minted)
    ensures m == MintedFor(id, definition, graceSecs, nowMs, marginMs)
  {
    var instances: seq<R.InstanceRecord> := [];
    for action := 0 to |definition|
      invariant instances == Instances(id, definition[..action], nowMs)
    {
      var hosts := definition[action].hosts;
      ghost var before := instances;
      for n := 0 to |hosts|
        invariant instances == before + ActionInstances(id, hosts[..n], action, nowMs)
      {
        assert hosts[..n + 1][..n] == hosts[..n];
        var host := Parse(hosts[n]);
        if host.Refused? {
          continue;
        }
        instances := instances + [PendingInstance(id, host.name, action, nowMs)];
      }
      assert hosts[..|hosts|] == hosts;
      assert definition[..action + 1][..action] == definition[..action];
    }
    assert definition[..|definition|] == definition;
    m := Minted(id, definition, graceSecs, nowMs, DeadlineMs(definition, graceSecs, nowMs, marginMs),
                R.Experiment(R.Running, instances, [], None));
  }

  // ----- One instance per (host, action) -----

  predicate AllSound(definition: Definition, catalog: Catalog, fleet: Fleet) {
    forall a :: 0 <= a < |definition| ==> Sound(definition[a], catalog, fleet)
  }

  lemma {:induction false} EveryHostIsMinted(id: ExperimentId, hosts: seq<string>, action: nat, nowMs: int)
    requires forall k :: 0 <= k < |hosts| ==> Parse(hosts[k]) == Parsed(hosts[k])
    ensures |ActionInstances(id, hosts, action, nowMs)| == |hosts|
    ensures forall k :: 0 <= k < |hosts| ==>
                          ActionInstances(id, hosts, action, nowMs)[k] == PendingInstance(id, hosts[k], action, nowMs)
  {
    if hosts != [] {
      EveryHostIsMinted(id, hosts[..|hosts| - 1], action, nowMs);
    }
  }

  /** `i` is the freshly minted instance of some target of some action. */
  predicate FromDefinition(i: R.InstanceRecord, id: ExperimentId, definition: Definition, nowMs: int) {
    && i.action < |definition| && i.host in definition[i.action].hosts && HostnameIdSafe(i.host)
    && i == PendingInstance(id, i.host, i.action, nowMs)
  }

  predicate AllFrom(instances: seq<R.InstanceRecord>, id: ExperimentId, definition: Definition, nowMs: int) {
    forall k :: 0 <= k < |instances| ==> FromDefinition(instances[k], id, definition, nowMs)
  }

  predicate DistinctTargets(instances: seq<R.InstanceRecord>) {
    forall j, k :: 0 <= j < k < |instances| ==>
                     instances[j].host != instances[k].host || instances[j].action != instances[k].action
  }

  /** The targets of each action are distinct, id-safe, and parse to themselves. */
  predicate CleanTargets(hosts: seq<string>) {
    Distinct(hosts) && forall k :: 0 <= k < |hosts| ==> HostnameIdSafe(hosts[k]) && Parse(hosts[k]) == Parsed(hosts[k])
  }

  predicate AllClean(definition: Definition) {
    forall a :: 0 <= a < |definition| ==> CleanTargets(definition[a].hosts)
  }

  lemma SoundIsClean(definition: Definition, catalog: Catalog, fleet: Fleet)
    requires AllSound(definition, catalog, fleet)
    ensures AllClean(definition)
  {
    forall a | 0 <= a < |definition|
      ensures CleanTargets(definition[a].hosts)
    {
      assert Sound(definition[a], catalog, fleet);
    }
  }

  /** The instances of one more action join those of the earlier ones. */
  lemma ActionJoins(earlier: seq<R.InstanceRecord>, id: ExperimentId, definition: Definition, last: nat, nowMs: int)
    requires last + 1 == |definition| && CleanTargets(definition[last].hosts)
    requires AllFrom(earlier, id, definition[..last], nowMs) && DistinctTargets(earlier)
    ensures var all := earlier + ActionInstances(id, definition[last].hosts, last, nowMs);
            AllFrom(all, id, definition, nowMs) && DistinctTargets(all)
  {
    var hosts := definition[last].hosts;
    var joined := ActionInstances(id, hosts, last, nowMs);
    EveryHostIsMinted(id, hosts, last, nowMs);
    var all := earlier + joined;
    assert forall k :: 0 <= k < |all| ==> all[k] == if k < |earlier| then earlier[k] else joined[k - |earlier|];
    forall k | 0 <= k < |all|
      ensures FromDefinition(all[k], id, definition, nowMs)
      ensures all[k].action == last <==> k >= |earlier|
    {
      assert k < |earlier| ==> FromDefinition(earlier[k], id, definition[..last], nowMs);
      assert k >= |earlier| ==> all[k] == PendingInstance(id, hosts[k - |earlier|], last, nowMs);
    }
  }

  lemma {:induction false} MintedFromDefinition(id: ExperimentId, definition: Definition, nowMs: int)
    requires AllClean(definition)
    ensures AllFrom(Instances(id, definition, nowMs), id, definition, nowMs)
    ensures DistinctTargets(Instances(id, definition, nowMs))
  {
    if definition != [] {
      var last := |definition| - 1;
      assert AllClean(definition[..last]);
      MintedFromDefinition(id, definition[..last], nowMs);
      ActionJoins(Instances(id, definition[..last], nowMs), id, definition, last, nowMs);
    }
  }

  /** Minting drops no target of an accepted definition. */
  lemma {:induction false} NoTargetIsDropped(id: ExperimentId, definition: Definition, nowMs: int, a: nat, host: string)
    requires AllClean(definition) && a < |definition| && host in definition[a].hosts
    ensures PendingInstance(id, host, a, nowMs) in Instances(id, definition, nowMs)
  {
    var last := |definition| - 1;
    var earlier := Instances(id, definition[..last], nowMs);
    var joined := ActionInstances(id, definition[last].hosts, last, nowMs);
    assert Instances(id, definition, nowMs) == earlier + joined;
    if a < last {
      NoTargetIsDropped(id, definition[..last], nowMs, a, host);
    } else {
      EveryHostIsMinted(id, definition[last].hosts, last, nowMs);
      var k :| 0 <= k < |definition[last].hosts| && definition[last].hosts[k] == host;
      assert joined[k] == PendingInstance(id, host, a, nowMs);
    }
  }

  lemma MintedIdsDiffer(instances: seq<R.InstanceRecord>, id: ExperimentId, definition: Definition, nowMs: int)
    requires AllFrom(instances, id, definition, nowMs) && DistinctTargets(instances) && Free(id, ':')
    ensures RR.DistinctIds(instances)
  {
    forall j, k | 0 <= j < k < |instances|
      ensures instances[j].id != instances[k].id
    {
      var a, b := instances[j], instances[k];
      assert FromDefinition(a, id, definition, nowMs) && FromDefinition(b, id, definition, nowMs);
      IdsAreInjective(id, a.host, a.action, id, b.host, b.action);
    }
  }

  lemma PendingIsGood(instances: seq<R.InstanceRecord>, id: ExperimentId, definition: Definition, nowMs: int)
    requires AllFrom(instances, id, definition, nowMs) && RR.DistinctIds(instances) && instances != []
    ensures var record := R.Experiment(R.Running, instances, [], None);
            RR.RecordInv(record) && RR.Synced(record)
  {
    assert FromDefinition(instances[0], id, definition, nowMs);
    assert forall k :: 0 <= k < |instances| ==> instances[k].state.Pending? && !instances[k].abortRequested by {
      assert forall k :: 0 <= k < |instances| ==> FromDefinition(instances[k], id, definition, nowMs);
    }
    RR.TriggersAreBadStates(instances);
  }

  /** What an accepted definition mints is a good record: one PENDING instance per (host, action), no
      two with the same id, at least one of them. So whatever is proved of good records holds of it. */
  lemma MintedIsGood(id: ExperimentId, definition: Definition, graceSecs: nat, nowMs: int, marginMs: int,
                     catalog: Catalog, fleet: Fleet)
    requires AllSound(definition, catalog, fleet) && definition != [] && Free(id, ':')
    ensures var record := MintedFor(id, definition, graceSecs, nowMs, marginMs).record;
            && RR.RecordInv(record) && RR.Synced(record) && AllFrom(record.instances, id, definition, nowMs)
            && forall k :: 0 <= k < |record.instances| ==>
                 var i := record.instances[k];
                 && i.action < |definition| && i.host in definition[i.action].hosts
                 && i == R.InstanceRecord(id + ":" + i.host + ":" + Digits(i.action), i.host, i.action,
                                          InstanceState.Pending, "", nowMs, false)
  {
    var all := Instances(id, definition, nowMs);
    SoundIsClean(definition, catalog, fleet);
    MintedFromDefinition(id, definition, nowMs);
    MintedIdsDiffer(all, id, definition, nowMs);
    assert definition[0].hosts != [] by {
      assert Sound(definition[0], catalog, fleet);
    }
    NoTargetIsDropped(id, definition, nowMs, 0, definition[0].hosts[0]);
    PendingIsGood(all, id, definition, nowMs);
    forall k | 0 <= k < |all|
      ensures all[k].action < |definition| && all[k].host in definition[all[k].action].hosts
      ensures all[k] == R.InstanceRecord(id + ":" + all[k].host + ":" + Digits(all[k].action), all[k].host,
                                         all[k].action, InstanceState.Pending, "", nowMs, false)
    {
      assert FromDefinition(all[k], id, definition, nowMs);
    }
  }

  lemma OwnIds(m: Minted)
    requires AllFrom(m.record.instances, m.id, m.definition, m.startedMs) && m.id != "" && Free(m.id, ':')
    ensures forall k :: 0 <= k < |m.record.instances| ==>
                          && m.record.instances[k].state.Pending?
                          && OwningExperimentId(m.record.instances[k].id) == Some(m.id)
  {
    forall k | 0 <= k < |m.record.instances|
      ensures m.record.instances[k].state.Pending?
      ensures OwningExperimentId(m.record.instances[k].id) == Some(m.id)
    {
      assert FromDefinition(m.record.instances[k], m.id, m.definition, m.startedMs);
      OwnerIff(m.record.instances[k].id, m.id);
    }
  }

  /** Every run of an accepted experiment starts where the composition theorems start, whatever the
      agents did before, as long as no earlier experiment had its id. */
  lemma MintedStarts(m: Minted, marginMs: int, catalog: Catalog, fleet: Fleet, agents: map<string, A.Agent>)
    requires AllSound(m.definition, catalog, fleet) && m.definition != [] && m.id != "" && Free(m.id, ':')
    requires m == MintedFor(m.id, m.definition, m.graceSecs, m.startedMs, marginMs)
    requires forall host :: host in agents ==> A.AgentInv(agents[host])
    requires forall host, id :: host in agents && id in agents[host].accepted + agents[host].readmitted ==>
                                  OwningExperimentId(id) != Some(m.id)
    ensures C.Start(C.System(m.record, agents))
  {
    MintedIsGood(m.id, m.definition, m.graceSecs, m.startedMs, marginMs, catalog, fleet);
    OwnIds(m);
    forall host | host in agents
      ensures C.NeverHeard(agents[host], m.record.instances)
    {
      forall k | 0 <= k < |m.record.instances|
        ensures m.record.instances[k].id !in agents[host].accepted + agents[host].readmitted
      {
        assert OwningExperimentId(m.record.instances[k].id) == Some(m.id);
      }
    }
  }

  /** Deadline totality, from the definition on: whatever happened to the record of an accepted
      definition, its deadline finds it concluded or concludes it as ERROR with a cause. */
  lemma EveryExperimentConcludes(id: ExperimentId, definition: Definition, graceSecs: nat, nowMs: int, marginMs: int,
                                 catalog: Catalog, fleet: Fleet, ms: seq<R.Message>, tsMs: int)
    requires AllSound(definition, catalog, fleet) && definition != [] && Free(id, ':')
    ensures var before := R.HandleAll(MintedFor(id, definition, graceSecs, nowMs, marginMs).record, ms);
            var after := R.Handle(before, R.DeadlineExpires(tsMs));
            if before.phase.Concluded? then after == before
            else after.phase == R.Concluded(R.ExperimentOutcome.Error) && after.cause.Some?
  {
    MintedIsGood(id, definition, graceSecs, nowMs, marginMs, catalog, fleet);
    RR.AlwaysConcludes(MintedFor(id, definition, graceSecs, nowMs, marginMs).record, ms, tsMs);
  }

  // ----- The salvo -----

  /** The RunFault frame of one instance. */
  function RunFaultOf(i: R.InstanceRecord, def: ActionDefinition, digest: string, graceSecs: nat): D.RunFaultFrame {
    D.RunFaultFrame(i.id, def.plugin, def.version, digest, Some(def.params), def.durationSecs, graceSecs)
  }

  /** The frame an instance of the record asks for, when the catalog knows its plugin. */
  predicate IsRunFault(frame: D.RunFaultFrame, i: R.InstanceRecord, m: Minted, catalog: Catalog) {
    && i.action < |m.definition|
    && var def := m.definition[i.action];
    && (def.plugin, def.version) in catalog
    && frame == RunFaultOf(i, def, catalog[(def.plugin, def.version)].digest, m.graceSecs)
  }

  predicate AllKnown(definition: Definition, catalog: Catalog) {
    forall a :: 0 <= a < |definition| ==> (definition[a].plugin, definition[a].version) in catalog
  }

  /** One frame for each of the first `n` instances, in record order, to the host of the instance. */
  predicate IsSalvo(salvo: seq<(string, D.RunFaultFrame)>, n: nat, m: Minted, catalog: Catalog)
    requires n <= |m.record.instances|
  {
    && |salvo| == n
    && forall k :: 0 <= k < n ==>
         salvo[k].0 == m.record.instances[k].host && IsRunFault(salvo[k].1, m.record.instances[k], m, catalog)
  }

  predicate ActionsExist(m: Minted) {
    forall k :: 0 <= k < |m.record.instances| ==> m.record.instances[k].action < |m.definition|
  }

  /** The single salvo. */
  method RunFaults(m: Minted, catalog: Catalog) returns (salvo: seq<(string, D.RunFaultFrame)>)
    requires ActionsExist(m)
    ensures AllKnown(m.definition, catalog) ==> IsSalvo(salvo, |m.record.instances|, m, catalog)
  {
    salvo := [];
    var instances := m.record.instances;
    for n := 0 to |instances|
      invariant AllKnown(m.definition, catalog) ==> IsSalvo(salvo, n, m, catalog)
    {
      var def := m.definition[instances[n].action];
      if (def.plugin, def.version) !in catalog {
        continue;
      }
      var digest := catalog[(def.plugin, def.version)].digest;
      salvo := salvo + [(instances[n].host, RunFaultOf(instances[n], def, digest, m.graceSecs))];
    }
  }

  lemma {:induction false} WindowCovers(definition: Definition, graceSecs: nat, a: nat)
    requires a < |definition|
    ensures definition[a].durationSecs + graceSecs <= MaxWindowSecs(definition, graceSecs)
  {
    if a > 0 {
      WindowCovers(definition[1..], graceSecs, a - 1);
    }
  }

  predicate IsWindow(definition: Definition, graceSecs: nat, window: nat) {
    exists a :: 0 <= a < |definition| && definition[a].durationSecs + graceSecs == window
  }

  /** The window is that of some action, so the deadline is no later than it has to be. */
  lemma {:induction false} WindowIsNeeded(definition: Definition, graceSecs: nat)
    requires definition != []
    ensures IsWindow(definition, graceSecs, MaxWindowSecs(definition, graceSecs))
  {
    assert IsWindow(definition, graceSecs, definition[0].durationSecs + graceSecs);
    if |definition| > 1 {
      WindowIsNeeded(definition[1..], graceSecs);
      var window := MaxWindowSecs(definition[1..], graceSecs);
      var a :| 0 <= a < |definition[1..]| && definition[1..][a].durationSecs + graceSecs == window;
      assert definition[a + 1].durationSecs + graceSecs == window;
      assert IsWindow(definition, graceSecs, window);
    } else {
      assert definition[1..] == [];
    }
  }

  /** The deadline leaves every action its duration and its grace, and the margin on top; some action needs
      exactly that much. */
  lemma DeadlineIs(id: ExperimentId, definition: Definition, graceSecs: nat, nowMs: int, marginMs: int)
    requires definition != []
    ensures var m := MintedFor(id, definition, graceSecs, nowMs, marginMs);
            && m.id == id && m.definition == definition && m.graceSecs == graceSecs && m.startedMs == nowMs
            && (forall a :: 0 <= a < |definition| ==>
                  nowMs + (definition[a].durationSecs + graceSecs) * 1000 + marginMs <= m.deadlineMs)
            && exists a :: 0 <= a < |definition|
                 && m.deadlineMs == nowMs + (definition[a].durationSecs + graceSecs) * 1000 + marginMs
  {
    var window := MaxWindowSecs(definition, graceSecs);
    WindowIsNeeded(definition, graceSecs);
    forall a | 0 <= a < |definition|
      ensures definition[a].durationSecs + graceSecs <= window
    {
      WindowCovers(definition, graceSecs, a);
    }
    var a :| 0 <= a < |definition| && definition[a].durationSecs + graceSecs == window;
  }

  /** Every frame of the salvo is welcome: the agent accepts the id, the master will find its
      experiment again, it carries the action's own plugin at the digest of the catalog, its parameters,
      duration and grace, setup passes on an untainted host with the same catalog, and a host that
      starts the instance within the margin reaches its dead-man no later than the master gives up. */
  lemma SalvoIsWelcome(m: Minted, nowMs: int, number: nat, marginMs: int, catalog: Catalog, fleet: Fleet,
                       k: nat, frame: D.RunFaultFrame, hostStartMs: nat)
    requires Loaded(catalog) && AllSound(m.definition, catalog, fleet) && m.definition != []
    requires m == MintedFor(MintId(nowMs, number), m.definition, m.graceSecs, nowMs, marginMs)
    requires k < |m.record.instances| && IsRunFault(frame, m.record.instances[k], m, catalog)
    ensures ValidInstanceId(frame.instanceId) && OwningExperimentId(frame.instanceId) == Some(m.id)
    ensures frame.instanceId == m.record.instances[k].id && m.record.instances[k].action < |m.definition|
    ensures var def := m.definition[m.record.instances[k].action];
            && (frame.pluginName, frame.pluginVersion) == (def.plugin, def.version)
            && (def.plugin, def.version) in catalog
            && frame.pluginDigest == catalog[(def.plugin, def.version)].digest
            && frame.params == Some(def.params)
            && frame.durationSecs == def.durationSecs && frame.graceSecs == m.graceSecs
    ensures D.VerdictOn(frame, false, catalog).Ready?
    ensures hostStartMs <= nowMs + marginMs ==> D.DeadlineUnix(hostStartMs, frame) * 1000 <= m.deadlineMs
  {
    var i := m.record.instances[k];
    MintedIdShape(nowMs, number);
    MintedIsGood(m.id, m.definition, m.graceSecs, nowMs, marginMs, catalog, fleet);
    assert FromDefinition(i, m.id, m.definition, nowMs);
    MintedIdRoundTrip(nowMs, number, i.host, i.action);
    assert Sound(m.definition[i.action], catalog, fleet);
    WindowCovers(m.definition, m.graceSecs, i.action);
  }
}
