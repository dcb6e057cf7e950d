/** The master's in-memory experiment store. Handlers change one record in place, under the store lock;
    each is proved to do to the record what the functions of Record say, so that everything proved in
    RecordRuns over message sequences holds of the store. */
module Dispatch {
  import opened Lifecycle
  import opened Sequences
  import opened Minting
  import R = Record
  import RR = RecordRuns

  ghost function UnaskedFrom(instances: seq<R.InstanceRecord>, k: nat): (targets: seq<R.Target>)
    requires k <= |instances|
    ensures k == 0 ==> targets == R.UnaskedTargets(instances)
    ensures k == |instances| ==> targets == []
    ensures k < |instances| ==>
              targets == (if R.Unasked(instances[k]) then [(instances[k].host, instances[k].id)] else [])
                         + UnaskedFrom(instances, k + 1)
    decreases |instances| - k
  {
    assert instances[0..] == instances;
    assert k < |instances| ==> instances[k..][1..] == instances[k + 1..];
    R.UnaskedTargets(instances[k..])
  }

  class ExperimentRecord {
    const id: ExperimentId
    var phase: R.ExperimentPhase
    var instances: seq<R.InstanceRecord>
    var tainted: seq<R.TaintedHost>
    var cause: Option<R.Cause>

    ghost function View(): R.Experiment
      reads this
    {
      R.Experiment(phase, instances, tainted, cause)
    }

    ghost predicate Valid()
      reads this
    {
      RR.RecordInv(View())
    }

    constructor (id: ExperimentId, record: R.Experiment)
      ensures this.id == id && View() == record
    {
      this.id := id;
      phase, instances, tainted, cause := record.phase, record.instances, record.tainted, record.cause;
    }

    // ----- Record updates -----

    /** Find the instance and overwrite its state, unless it is terminal. */
    method ApplyStatus(id: InstanceId, state: InstanceState, reason: string, tsMs: int) returns (changed: bool)
      modifies this`instances
      ensures instances == R.ApplyStatus(old(instances), id, state, reason, tsMs)
      ensures changed == R.Accepts(old(instances), id)
    {
      var k := 0;
      while k < |instances| && instances[k].id != id
        invariant k <= |instances|
        invariant forall j :: 0 <= j < k ==> instances[j].id != id
      {
        k := k + 1;
      }
      assert k == R.IndexOf(instances, id);
      if k == |instances| || instances[k].IsTerminal() {
        return false;
      }
      instances := instances[k := instances[k].(state := state, reason := reason, updatedMs := tsMs)];
      return true;
    }

    method RecordTaint(host: string, reason: string, tsMs: int)
      modifies this`tainted
      ensures tainted == R.RecordTaint(old(tainted), host, reason, tsMs)
    {
      for k := 0 to |tainted|
        invariant tainted == old(tainted)
        invariant forall j :: 0 <= j < k ==> tainted[j].host != host
      {
        if tainted[k].host == host {
          return;
        }
      }
      tainted := tainted + [R.TaintedHost(host, reason, tsMs)];
    }

    /** Scan for the first ERROR or unrequested ABORTED; failing that, the first taint. */
    method KillTrigger() returns (trigger: Option<R.Cause>)
      ensures trigger == R.KillTrigger(View())
    {
      if !phase.Running? {
        return None;
      }
      for k := 0 to |instances|
        invariant R.FirstTrigger(instances) == R.FirstTrigger(instances[k..])
      {
        assert instances[k..][1..] == instances[k + 1..];
        var i := instances[k];
        if i.state.Error? {
          return Some(R.InstanceCause(i, R.InstanceError(i.reason)));
        }
        if i.state.Aborted? && !i.abortRequested {
          return Some(R.InstanceCause(i, R.AgentAbort(i.reason)));
        }
      }
      trigger := R.TaintCause(tainted);
    }

    /** Mark one instance, if it is live and was not asked to abort before. */
    method Mark(k: nat) returns (aborts: seq<R.Target>)
      requires k < |instances|
      modifies this`instances
      ensures instances == old(instances)[k := R.AskAll(old(instances))[k]]
      ensures aborts == if R.Unasked(old(instances)[k]) then [(old(instances)[k].host, old(instances)[k].id)] else []
    {
      aborts := [];
      if R.Unasked(instances[k]) {
        aborts := [(instances[k].host, instances[k].id)];
        instances := instances[k := instances[k].(abortRequested := true)];
      }
    }

    /** Mark and collect every live instance not yet asked to abort. */
    method MarkLive() returns (aborts: seq<R.Target>)
      modifies this`instances
      ensures instances == R.AskAll(old(instances)) && aborts == R.UnaskedTargets(old(instances))
    {
      aborts := [];
      ghost var was, asked := instances, R.AskAll(instances);
      ghost var left := UnaskedFrom(was, 0);
      for k := 0 to |instances|
        invariant |instances| == |was|
        invariant forall j :: 0 <= j < |was| ==> instances[j] == if j < k then asked[j] else was[j]
        invariant aborts + left == R.UnaskedTargets(was) && left == UnaskedFrom(was, k)
      {
        left := UnaskedFrom(was, k + 1);
        var more := Mark(k);
        Associative(aborts, more, left);
        aborts := aborts + more;
      }
    }

    /** The first cause wins. */
    method FireKillSwitch(cause: R.Cause) returns (aborts: seq<R.Target>)
      modifies this
      ensures View() == R.FireKillSwitch(old(View()), cause)
      ensures aborts == if old(phase).Concluded? then [] else R.UnaskedTargets(old(instances))
    {
      if phase.Concluded? {
        return [];
      }
      if this.cause.None? {
        this.cause := Some(cause);
      }
      phase := R.Halting;
      aborts := MarkLive();
    }

    method ConcludeIfDone()
      modifies this`phase, this`cause
      ensures View() == R.ConcludeIfDone(old(View()))
    {
      if phase.Concluded? {
        return;
      }
      var outcome := R.Outcome(instances, tainted);
      if outcome.None? {
        return;
      }
      if cause.None? {
        cause := R.OutcomeCause(R.Experiment(phase, instances, tainted, cause), outcome.value);
      }
      phase := R.Concluded(outcome.value);
    }

    method ReactToUpdate() returns (aborts: seq<R.Target>)
      modifies this
      ensures View() == R.React(old(View()))
      ensures aborts == R.ReactAborts(old(View()))
    {
      aborts := [];
      var trigger := KillTrigger();
      if trigger.Some? {
        assert !phase.Concluded?;
        aborts := FireKillSwitch(trigger.value);
      }
      ConcludeIfDone();
    }

    // ----- What each handler does to the record -----

    method OnStatus(id: InstanceId, state: InstanceState, reason: string, tsMs: int) returns (aborts: seq<R.Target>)
      requires Valid()
      modifies this
      ensures Valid()
      ensures View() == R.Handle(old(View()), R.StatusReport(id, state, reason, tsMs))
      ensures aborts == R.Fired(old(View()), R.StatusReport(id, state, reason, tsMs))
    {
      RR.HandleKeeps(View(), R.StatusReport(id, state, reason, tsMs));
      aborts := [];
      var changed := ApplyStatus(id, state, reason, tsMs);
      if changed {
        aborts := ReactToUpdate();
      }
    }

    method OnTaint(host: string, reason: string, tsMs: int) returns (aborts: seq<R.Target>)
      requires Valid()
      modifies this
      ensures Valid()
      ensures View() == R.Handle(old(View()), R.TaintReport(host, true, reason, tsMs))
      ensures aborts == R.Fired(old(View()), R.TaintReport(host, true, reason, tsMs))
    {
      RR.HandleKeeps(View(), R.TaintReport(host, true, reason, tsMs));
      if phase.Concluded? || forall k :: 0 <= k < |instances| ==> instances[k].host != host {
        return [];
      }
      RecordTaint(host, reason, tsMs);
      aborts := ReactToUpdate();
    }

    method OnHalt(reason: string, nowMs: int) returns (accepted: bool, aborts: seq<R.Target>)
      requires Valid()
      modifies this
      ensures Valid() && accepted == !old(phase).Concluded?
      ensures View() == R.Handle(old(View()), R.OperatorHalts(reason, nowMs))
      ensures aborts == R.Fired(old(View()), R.OperatorHalts(reason, nowMs))
    {
      RR.HandleKeeps(View(), R.OperatorHalts(reason, nowMs));
      if phase.Concluded? {
        return false, [];
      }
      accepted := true;
      aborts := FireKillSwitch(R.Cause(None, None, R.OperatorHalt(reason), nowMs));
      ConcludeIfDone();
    }

    /** Turn the listed instances to ERROR, one status at a time. */
    method ForceErrors(targets: seq<R.Target>, nowMs: int)
      modifies this`instances
      ensures instances == R.ForceErrors(old(instances), targets, nowMs)
    {
      for n := 0 to |targets|
        invariant instances == R.ForceErrors(old(instances), targets[..n], nowMs)
      {
        assert targets[..n + 1][..n] == targets[..n];
        var _ := ApplyStatus(targets[n].1, InstanceState.Error, "unresolved at experiment deadline", nowMs);
      }
      assert targets[..|targets|] == targets;
    }

    /** Everything still live becomes ERROR; those instances get an abort besides. */
    method OnDeadline(nowMs: int) returns (unresolved: seq<R.Target>)
      requires Valid()
      modifies this
      ensures Valid() && phase.Concluded?
      ensures View() == R.Handle(old(View()), R.DeadlineExpires(nowMs))
      ensures unresolved == if old(phase).Concluded? then [] else R.LiveTargets(old(instances))
    {
      hide RR.RecordInv, R.ForceErrors, R.LiveTargets, R.ConcludeIfDone;
      if phase.Concluded? {
        RR.HandleKeeps(View(), R.DeadlineExpires(nowMs));
        return [];
      }
      RR.DeadlineConcludes(View(), nowMs);
      unresolved := R.LiveTargets(instances);
      if cause.None? {
        cause := R.DeadlineCause(unresolved, nowMs);
      }
      ForceErrors(unresolved, nowMs);
      ConcludeIfDone();
    }
  }
}
