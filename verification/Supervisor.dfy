/** The agent's registry of instances: which RunFault frames start a task, which AbortFault frames reach
    one, and what the reconciliation report lists. */
module Supervisor {
  import opened Lifecycle
  import opened Charset
  import opened Ordering
  import opened Drivers
  import A = AgentSystem

  datatype ServerFrame = RunFault(run: RunFaultFrame) | AbortFault(id: InstanceId)

  predicate HasRun(runs: seq<RunFaultFrame>, id: InstanceId) {
    exists k :: 0 <= k < |runs| && runs[k].instanceId == id
  }

  /** The frame starts a task, after those of `earlier`. */
  predicate Starts(frame: ServerFrame, earlier: seq<RunFaultFrame>) {
    frame.RunFault? && ValidInstanceId(frame.run.instanceId) && !HasRun(earlier, frame.run.instanceId)
  }

  /** The RunFault frames that started a task. */
  function Started(frames: seq<ServerFrame>): seq<RunFaultFrame> {
    if frames == [] then []
    else
      var last := |frames| - 1;
      var earlier := Started(frames[..last]);
      if Starts(frames[last], earlier) then earlier + [frames[last].run] else earlier
  }

  /** How many aborts of `id` found its task. */
  function Reached(frames: seq<ServerFrame>, id: InstanceId): nat {
    if frames == [] then 0
    else
      var last := |frames| - 1;
      Reached(frames[..last], id)
      + if frames[last] == AbortFault(id) && HasRun(Started(frames[..last]), id) then 1 else 0
  }

  /** `run` was the first usable RunFault of its id. */
  predicate IsFirst(frames: seq<ServerFrame>, run: RunFaultFrame) {
    && ValidInstanceId(run.instanceId)
    && exists k :: 0 <= k < |frames| && frames[k] == RunFault(run)
                   && forall j :: 0 <= j < k ==> !(frames[j].RunFault? && frames[j].run.instanceId == run.instanceId)
  }

  predicate Asks(frames: seq<ServerFrame>, id: InstanceId) {
    exists k :: 0 <= k < |frames| && frames[k].RunFault? && frames[k].run.instanceId == id
  }

  lemma {:induction false} RunKnown(frames: seq<ServerFrame>, id: InstanceId)
    ensures HasRun(Started(frames), id) <==>
            ValidInstanceId(id) && Asks(frames, id)
  {
    if frames != [] {
      var last := |frames| - 1;
      RunKnown(frames[..last], id);
      assert forall k :: 0 <= k < last ==> frames[..last][k] == frames[k];
      var earlier := Started(frames[..last]);
      if Starts(frames[last], earlier) {
        var all := earlier + [frames[last].run];
        assert all[|earlier|] == frames[last].run;
        assert forall k :: 0 <= k < |earlier| ==> all[k] == earlier[k];
      }
    }
  }

  /** Whatever frames arrive, duplicated or not: a task is started by exactly the first usable RunFault
      of each id, so by no two frames with the same id. */
  lemma {:induction false} EachIdStartsOnce(frames: seq<ServerFrame>)
    ensures forall run :: run in Started(frames) <==> IsFirst(frames, run)
    ensures forall j, k :: 0 <= j < k < |Started(frames)| ==>
                             Started(frames)[j].instanceId != Started(frames)[k].instanceId
  {
    if frames != [] {
      var last := |frames| - 1;
      var before, frame := frames[..last], frames[last];
      EachIdStartsOnce(before);
      forall run
        ensures IsFirst(frames, run) <==>
                IsFirst(before, run) || (frame == RunFault(run) && Starts(frame, Started(before)))
      {
        RunKnown(before, run.instanceId);
        FirstGrows(frames, run);
      }
    }
  }

  lemma FirstGrows(frames: seq<ServerFrame>, run: RunFaultFrame)
    requires frames != []
    ensures var before, frame := frames[..|frames| - 1], frames[|frames| - 1];
            IsFirst(frames, run) <==>
            || IsFirst(before, run)
            || (frame == RunFault(run) && ValidInstanceId(run.instanceId)
                && !Asks(before, run.instanceId))
  {
    var before := frames[..|frames| - 1];
    assert forall k :: 0 <= k < |before| ==> before[k] == frames[k];
  }

  /** An abort that overtakes the RunFault of its instance is lost. */
  lemma OvertakingAbortIsLost(run: RunFaultFrame)
    requires ValidInstanceId(run.instanceId)
    ensures Started([AbortFault(run.instanceId), RunFault(run)]) == [run]
    ensures Reached([AbortFault(run.instanceId), RunFault(run)], run.instanceId) == 0
  {
    var abort: seq<ServerFrame> := [AbortFault(run.instanceId)];
    Grows([], abort[0]);
    assert [] + [abort[0]] == abort;
    Grows(abort, RunFault(run));
    assert abort + [RunFault(run)] == [AbortFault(run.instanceId), RunFault(run)];
  }

  // ----- The registry -----

  /** What the supervisor shares with the task of an instance: its view, and the channel of stops. */
  datatype Handle = Handle(state: InstanceState, digest: string, stops: nat)

  datatype ReportedStatus = ReportedStatus(id: InstanceId, state: InstanceState, digest: string)

  function ById(): ReportedStatus -> string {
    (s: ReportedStatus) => s.id
  }

  type Registry = map<InstanceId, Handle>

  /** The instance is live, and this is its line of the report. */
  predicate Reports(instances: Registry, s: ReportedStatus) {
    && s.id in instances && !instances[s.id].state.IsTerminal()
    && s == ReportedStatus(s.id, instances[s.id].state, instances[s.id].digest)
  }

  predicate EachOnce(report: seq<ReportedStatus>) {
    forall j, k :: 0 <= j < k < |report| ==> report[j].id != report[k].id
  }

  lemma StaysEachOnce(report: seq<ReportedStatus>, s: ReportedStatus, k: nat)
    requires k <= |report| && EachOnce(report) && forall x :: x in report ==> x.id != s.id
    ensures EachOnce(report[..k] + [s] + report[k..])
  {
    var more := report[..k] + [s] + report[k..];
    Inserted(report, s, k);
    forall i, j | 0 <= i < j < |more|
      ensures more[i].id != more[j].id
    {
      var a, b := if i < k then i else i - 1, if j < k then j else j - 1;
      assert i != k ==> more[i] == report[a];
      assert j != k ==> more[j] == report[b];
    }
  }

  class Supervisor {
    var instances: Registry
    ghost var history: seq<ServerFrame>

    ghost predicate Valid()
      reads this
    {
      && (forall id :: id in instances <==> HasRun(Started(history), id))
      && (forall id :: id in instances ==> instances[id].stops == Reached(history, id))
    }

    constructor ()
      ensures Valid() && history == [] && instances == map[]
    {
      instances, history := map[], [];
    }

    /** Start a task, or drop the frame: unusable id, or instance already known. */
    method HandleRunFault(run: RunFaultFrame) returns (spawned: bool)
      requires Valid()
      modifies this
      ensures Valid() && history == old(history) + [RunFault(run)]
      ensures spawned == Starts(RunFault(run), Started(old(history)))
      ensures instances ==
              if spawned then old(instances)[run.instanceId := Handle(InstanceState.Pending, run.pluginDigest, 0)]
              else old(instances)
    {
      ghost var was := history;
      history := history + [RunFault(run)];
      Grows(was, RunFault(run));
      if !ValidInstanceId(run.instanceId) || run.instanceId in instances {
        return false;
      }
      NothingReached(was, run.instanceId);
      instances := instances[run.instanceId := Handle(InstanceState.Pending, run.pluginDigest, 0)];
      spawned := true;
    }

    method HandleAbortFault(id: InstanceId) returns (delivered: bool)
      requires Valid()
      modifies this
      ensures Valid() && history == old(history) + [AbortFault(id)] && delivered == (id in old(instances))
      ensures instances ==
              if delivered then old(instances)[id := old(instances)[id].(stops := old(instances)[id].stops + 1)]
              else old(instances)
    {
      Grows(history, AbortFault(id));
      history := history + [AbortFault(id)];
      delivered := id in instances;
      if delivered {
        instances := instances[id := instances[id].(stops := instances[id].stops + 1)];
      }
    }

    /** The task publishes its state. */
    method Publish(id: InstanceId, state: InstanceState)
      requires Valid() && id in instances
      modifies this`instances
      ensures Valid() && instances == old(instances)[id := old(instances)[id].(state := state)]
    {
      instances := instances[id := instances[id].(state := state)];
    }

    /** The reconciliation snapshot: exactly the live instances, each once, sorted by id. */
    method ReportFrame() returns (report: seq<ReportedStatus>)
      ensures forall s :: s in report <==> Reports(instances, s)
      ensures EachOnce(report) && SortedBy(report, ById())
    {
      report := [];
      var left := instances.Keys;
      while left != {}
        invariant left <= instances.Keys
        invariant forall s :: s in report <==> Reports(instances, s) && s.id !in left
        invariant EachOnce(report) && SortedBy(report, ById())
      {
        var id :| id in left;
        left := left - {id};
        var view := instances[id];
        if !view.state.IsTerminal() {
          var s := ReportedStatus(id, view.state, view.digest);
          var k, more := Insert(report, s, ById());
          StaysEachOnce(report, s, k);
          Inserted(report, s, k);
          report := more;
        }
      }
    }
  }

  // ----- The registry and the agent -----

  /** The registry's views are those of the agent's tasks. */
  predicate Mirrors(instances: Registry, a: A.Agent) {
    && instances.Keys == a.tasks.Keys
    && forall id :: id in instances ==> instances[id].state == a.tasks[id].state.InstanceStateOf()
  }

  /** So the report lists what AgentSystem calls reported. */
  lemma ReportsWhatTheAgentSends(instances: Registry, a: A.Agent, id: InstanceId, state: InstanceState)
    requires Mirrors(instances, a)
    ensures (id, state) in A.Reported(a) <==> exists digest :: Reports(instances, ReportedStatus(id, state, digest))
  {
    if id in instances {
      assert Reports(instances, ReportedStatus(id, state, instances[id].digest)) <==>
             state == instances[id].state && !state.IsTerminal();
    }
  }

  predicate Accepts(acts: seq<A.Action>, id: InstanceId) {
    exists k :: 0 <= k < |acts| && acts[k].RunFault? && acts[k].id == id
  }

  /** Neither of these starts or ends a life. */
  predicate WithinOneLife(acts: seq<A.Action>) {
    forall k :: 0 <= k < |acts| ==>
                  !acts[k].Crash? && !acts[k].Restart? && !acts[k].OpenSessions? && !acts[k].ReplayNext?
  }

  lemma {:induction false} TasksOfALife(a: A.Agent, acts: seq<A.Action>, id: InstanceId)
    requires A.Possible(a, acts) && a.life.Up? && WithinOneLife(acts)
    ensures id in A.RunAgent(a, acts).tasks <==> id in a.tasks || (ValidInstanceId(id) && Accepts(acts, id))
    decreases |acts|
  {
    if acts != [] {
      var b := A.Act(a, acts[0]);
      assert forall k :: 0 < k < |acts| ==> acts[k] == acts[1..][k - 1];
      assert b.life == a.life;
      TasksOfALife(b, acts[1..], id);
      assert id in b.tasks <==> id in a.tasks || (ValidInstanceId(id) && acts[0].RunFault? && acts[0].id == id);
      assert Accepts(acts, id) <==> (acts[0].RunFault? && acts[0].id == id) || Accepts(acts[1..], id) by {
        if Accepts(acts[1..], id) {
          var k :| 0 <= k < |acts[1..]| && acts[1..][k].RunFault? && acts[1..][k].id == id;
          assert acts[k + 1] == acts[1..][k];
        }
      }
    }
  }

  /** Registry and agent know the same instances: over one life, however the frames interleave with what
      the instances do, a task exists for exactly the ids that the registry started. */
  lemma RegistryIsTheAgents(a: A.Agent, acts: seq<A.Action>, frames: seq<ServerFrame>, id: InstanceId)
    requires A.Possible(a, acts) && a.life.Up? && a.tasks == map[] && WithinOneLife(acts)
    requires Asks(frames, id) <==> Accepts(acts, id)
    ensures id in A.RunAgent(a, acts).tasks <==> HasRun(Started(frames), id)
  {
    TasksOfALife(a, acts, id);
    RunKnown(frames, id);
  }

  lemma Grows(history: seq<ServerFrame>, frame: ServerFrame)
    ensures Started(history + [frame]) ==
            if Starts(frame, Started(history)) then Started(history) + [frame.run] else Started(history)
    ensures forall id :: HasRun(Started(history + [frame]), id) <==>
                           || HasRun(Started(history), id)
                           || (Starts(frame, Started(history)) && frame.run.instanceId == id)
    ensures forall id :: Reached(history + [frame], id) ==
                           Reached(history, id)
                           + if frame == AbortFault(id) && HasRun(Started(history), id) then 1 else 0
  {
    assert (history + [frame])[..|history|] == history;
    var earlier := Started(history);
    if Starts(frame, earlier) {
      var all := earlier + [frame.run];
      assert all[|earlier|] == frame.run;
      assert forall k :: 0 <= k < |earlier| ==> all[k] == earlier[k];
    }
  }

  lemma {:induction false} NothingReached(frames: seq<ServerFrame>, id: InstanceId)
    requires !HasRun(Started(frames), id)
    ensures Reached(frames, id) == 0
  {
    if frames != [] {
      var last := |frames| - 1;
      assert frames == frames[..last] + [frames[last]];
      Grows(frames[..last], frames[last]);
      NothingReached(frames[..last], id);
    }
  }
}
