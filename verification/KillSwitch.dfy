/** What fires the kill-switch, whom it reaches, and whom the record blames. */
module KillSwitch {
  import opened Lifecycle
  import opened Record
  import opened RecordRuns

  // ----- What fires it -----

  predicate Alive(instances: seq<InstanceRecord>, id: InstanceId) {
    exists k :: 0 <= k < |instances| && instances[k].id == id && !instances[k].IsTerminal()
  }

  /** The messages that an experiment does not go on after: a live instance failed or was aborted, one of its
      hosts is tainted, the operator halts it, its deadline is over. */
  predicate Halts(e: Experiment, m: Message) {
    match m
    case StatusReport(id, state, _, _) => Alive(e.instances, id) && (state.Error? || state.Aborted?)
    case TaintReport(host, tainted, _, _) => tainted && Targets(e, host)
    case OperatorHalts(_, _) => true
    case DeadlineExpires(_) => true
  }

  lemma AcceptsIsAlive(e: Experiment, id: InstanceId)
    requires DistinctIds(e.instances)
    ensures Accepts(e.instances, id) <==> Alive(e.instances, id)
  {
    var k := IndexOf(e.instances, id);
    if Alive(e.instances, id) {
      var j :| 0 <= j < |e.instances| && e.instances[j].id == id && !e.instances[j].IsTerminal();
      assert j == k;
    }
  }

  /** A running experiment is stopped by exactly those messages. By any other it stays as it was or goes on,
      and nobody is asked to abort: at most its last instance is DONE, and it is COMPLETED. */
  lemma WhatHalts(e: Experiment, m: Message)
    requires RecordInv(e) && e.phase.Running?
    ensures var after := Handle(e, m);
            && (Halts(e, m) <==> !after.phase.Running? && after.phase != Concluded(ExperimentOutcome.Completed))
            && (!Halts(e, m) ==> Fired(e, m) == [])
  {
    HandleKeeps(e, m);
    match m {
      case StatusReport(id, state, reason, ts) => StatusHalts(e, id, state, reason, ts);
      case TaintReport(host, tainted, reason, ts) => TaintHalts(e, host, tainted, reason, ts);
      case OperatorHalts(reason, ts) => AskingKeepsStates(e.instances);
      case DeadlineExpires(ts) => DeadlineConcludes(e, ts);
    }
  }

  /** A running record that was just updated halts exactly when something in it is bad. */
  lemma ReactHalts(e: Experiment)
    requires DistinctIds(e.instances) && e.phase.Running? && NoneAsked(e.instances) && e.cause.None?
    ensures NothingBad(e) <==> React(e).phase.Running? || React(e).phase == Concluded(ExperimentOutcome.Completed)
    ensures NothingBad(e) ==> ReactAborts(e) == []
    ensures !NothingBad(e) ==> ReactAborts(e) == UnaskedTargets(e.instances)
  {
    TriggerIsBad(e);
    AskingKeepsStates(e.instances);
    if !NothingBad(e) && e.tainted == [] {
      var k :| 0 <= k < |e.instances| && (e.instances[k].state.Error? || e.instances[k].state.Aborted?);
      assert AskAll(e.instances)[k].state == e.instances[k].state;
    }
  }

  lemma StatusIsBad(e: Experiment, id: InstanceId, state: InstanceState, reason: string, ts: int)
    requires RecordInv(e) && e.phase.Running? && Accepts(e.instances, id)
    ensures NothingBad(e.(instances := ApplyStatus(e.instances, id, state, reason, ts))) <==>
            !state.Error? && !state.Aborted?
  {
    var k := IndexOf(e.instances, id);
    assert ApplyStatus(e.instances, id, state, reason, ts)[k].state == state;
  }

  lemma StatusHalts(e: Experiment, id: InstanceId, state: InstanceState, reason: string, ts: int)
    requires RecordInv(e) && e.phase.Running?
    ensures var m := StatusReport(id, state, reason, ts);
            var after := Handle(e, m);
            && (Halts(e, m) <==> !after.phase.Running? && after.phase != Concluded(ExperimentOutcome.Completed))
            && (!Halts(e, m) ==> Fired(e, m) == [])
  {
    AcceptsIsAlive(e, id);
    if Accepts(e.instances, id) {
      ApplyFacts(e.instances, id, state, reason, ts);
      StatusIsBad(e, id, state, reason, ts);
      hide NothingBad, React, ReactAborts, ApplyStatus, Alive, Accepts;
      ReactHalts(e.(instances := ApplyStatus(e.instances, id, state, reason, ts)));
    }
  }

  lemma TaintHalts(e: Experiment, host: string, tainted: bool, reason: string, ts: int)
    requires RecordInv(e) && e.phase.Running?
    ensures var m := TaintReport(host, tainted, reason, ts);
            var after := Handle(e, m);
            && (Halts(e, m) <==> !after.phase.Running? && after.phase != Concluded(ExperimentOutcome.Completed))
            && (!Halts(e, m) ==> Fired(e, m) == [])
  {
    ReactHalts(e.(tainted := RecordTaint(e.tainted, host, reason, ts)));
  }

  // ----- Whom it reaches -----

  /** The instance of this id on this host was asked to abort by this message. */
  predicate NewlyAsked(before: seq<InstanceRecord>, after: seq<InstanceRecord>, host: string, id: InstanceId) {
    |before| == |after| &&
    exists k :: 0 <= k < |after| && after[k].host == host && after[k].id == id
                && after[k].abortRequested && !before[k].abortRequested
  }

  lemma {:induction false} UnaskedTargetsAre(instances: seq<InstanceRecord>, host: string, id: InstanceId)
    ensures (host, id) in UnaskedTargets(instances) <==>
            exists k :: 0 <= k < |instances| && instances[k].host == host && instances[k].id == id
                        && !instances[k].IsTerminal() && !instances[k].abortRequested
  {
    if instances != [] {
      UnaskedTargetsAre(instances[1..], host, id);
      assert forall k :: 0 < k < |instances| ==> instances[k] == instances[1..][k - 1];
    }
  }

  lemma {:induction false} LiveTargetsAre(instances: seq<InstanceRecord>, host: string, id: InstanceId)
    ensures (host, id) in LiveTargets(instances) <==>
            exists k :: 0 <= k < |instances| && instances[k].host == host && instances[k].id == id
                        && !instances[k].IsTerminal()
  {
    if instances != [] {
      LiveTargetsAre(instances[1..], host, id);
      assert forall k :: 0 < k < |instances| ==> instances[k] == instances[1..][k - 1];
    }
  }

  lemma BaseKeepsRequests(e: Experiment, m: Message)
    requires RecordInv(e)
    ensures |Base(e, m)| == |e.instances|
    ensures forall k :: 0 <= k < |e.instances| ==>
              && Base(e, m)[k].id == e.instances[k].id && Base(e, m)[k].host == e.instances[k].host
              && Base(e, m)[k].abortRequested == e.instances[k].abortRequested
  {
    if m.StatusReport? {
      ApplyFacts(e.instances, m.id, m.state, m.reason, m.tsMs);
    } else if m.DeadlineExpires? {
      ForcedPrefix(e.instances, LiveTargets(e.instances), m.tsMs);
    }
  }

  /** Asking all of them marks exactly those it hands out. */
  lemma AskingMarks(was: seq<InstanceRecord>, base: seq<InstanceRecord>, host: string, id: InstanceId)
    requires |was| == |base|
    requires forall k :: 0 <= k < |was| ==> base[k].abortRequested == was[k].abortRequested
    ensures (host, id) in UnaskedTargets(base) <==> NewlyAsked(was, AskAll(base), host, id)
    ensures (host, id) in UnaskedTargets(base) ==> Alive(AskAll(base), id)
    ensures !NewlyAsked(was, was, host, id) && !NewlyAsked(was, base, host, id)
  {
    UnaskedTargetsAre(base, host, id);
    hide UnaskedTargets;
    var after := AskAll(base);
    if (host, id) in UnaskedTargets(base) {
      var k :| 0 <= k < |base| && base[k].host == host && base[k].id == id
               && !base[k].IsTerminal() && !base[k].abortRequested;
      assert after[k].abortRequested && after[k].id == id && after[k].host == host && !after[k].IsTerminal();
    }
    if NewlyAsked(was, after, host, id) {
      var k :| 0 <= k < |after| && after[k].host == host && after[k].id == id
               && after[k].abortRequested && !was[k].abortRequested;
      assert Unasked(base[k]);
    }
  }

  /** An abort is handed out for an instance, with its host, exactly when this message marked it as asked; and
      none is marked once it is over. */
  lemma FiredIsWhoWasAsked(e: Experiment, m: Message, host: string, id: InstanceId)
    requires RecordInv(e)
    ensures (host, id) in Fired(e, m) <==> NewlyAsked(e.instances, Handle(e, m).instances, host, id)
    ensures (host, id) in Fired(e, m) ==> Alive(Handle(e, m).instances, id)
  {
    BaseKeepsRequests(e, m);
    HandleAsks(e, m);
    AskingMarks(e.instances, Base(e, m), host, id);
    hide Handle, Fired, Base, NewlyAsked, Alive, RecordInv, UnaskedTargets;
  }

  /** A taint stops the experiment. When a host of an unconcluded experiment is reported as tainted, the
      record knows it, has a cause, and is HALTING, with every instance over or asked to abort; the live
      ones that nobody had asked before are exactly those that get an abort now. */
  lemma TaintStopsTheExperiment(e: Experiment, host: string, reason: string, ts: int)
    requires RecordInv(e) && !e.phase.Concluded? && Targets(e, host)
    ensures var (after, fired) := (Handle(e, TaintReport(host, true, reason, ts)),
                                   Fired(e, TaintReport(host, true, reason, ts)));
            && KnownTainted(after.tainted, host)
            && after.phase.Halting? && after.cause.Some?
            && (forall k :: 0 <= k < |after.instances| ==>
                              after.instances[k].IsTerminal() || after.instances[k].abortRequested)
            && forall h, id :: (h, id) in fired <==>
                 exists k :: 0 <= k < |e.instances| && e.instances[k].host == h && e.instances[k].id == id
                             && !e.instances[k].IsTerminal() && !e.instances[k].abortRequested
    ensures e.cause.None? ==>
              Handle(e, TaintReport(host, true, reason, ts)).cause
              == Some(Cause(Some(host), None, HostTainted(reason), ts))
  {
    TaintSettles(e, host, reason, ts);
    TaintAsks(e, host, reason, ts);
    forall h, id
      ensures (h, id) in UnaskedTargets(e.instances) <==>
              exists k :: 0 <= k < |e.instances| && e.instances[k].host == h && e.instances[k].id == id
                          && !e.instances[k].IsTerminal() && !e.instances[k].abortRequested
    {
      UnaskedTargetsAre(e.instances, h, id);
    }
    hide Handle, Fired, RecordInv, UnaskedTargets;
  }

  lemma TaintSettles(e: Experiment, host: string, reason: string, ts: int)
    requires RecordInv(e) && !e.phase.Concluded? && Targets(e, host)
    ensures var after := Handle(e, TaintReport(host, true, reason, ts));
            && after.tainted == RecordTaint(e.tainted, host, reason, ts) && KnownTainted(after.tainted, host)
            && after.phase.Halting? && after.cause.Some? && AllTerminalOrAsked(after.instances)
  {
    var m := TaintReport(host, true, reason, ts);
    HandleKeeps(e, m);
    TaintIsKnown(e.tainted, host, reason, ts);
    var base := e.(tainted := RecordTaint(e.tainted, host, reason, ts));
    AskingKeepsStates(e.instances);
    ReactKeepsCores(base);
    if e.phase.Running? {
      ReactHalts(base);
    }
  }

  lemma TaintAsks(e: Experiment, host: string, reason: string, ts: int)
    requires RecordInv(e) && !e.phase.Concluded? && Targets(e, host)
    ensures Fired(e, TaintReport(host, true, reason, ts)) == UnaskedTargets(e.instances)
    ensures e.cause.None? ==>
              Handle(e, TaintReport(host, true, reason, ts)).cause
              == Some(Cause(Some(host), None, HostTainted(reason), ts))
  {
    var base := e.(tainted := RecordTaint(e.tainted, host, reason, ts));
    if e.phase.Running? {
      ReactHalts(base);
      TriggerIff(e.instances);
      AskingKeepsStates(e.instances);
    } else {
      NobodyLeftToAsk(e.instances);
    }
  }

  lemma {:induction false} NobodyLeftToAsk(instances: seq<InstanceRecord>)
    requires AllTerminalOrAsked(instances)
    ensures UnaskedTargets(instances) == []
  {
    if instances != [] {
      assert AllTerminalOrAsked(instances[1..]);
      NobodyLeftToAsk(instances[1..]);
      assert !Unasked(instances[0]);
    }
  }

  /** The first report of a host is kept, and no other host's is touched. */
  lemma TaintIsKnown(tainted: seq<TaintedHost>, host: string, reason: string, ts: int)
    ensures var after := RecordTaint(tainted, host, reason, ts);
            && tainted <= after && KnownTainted(after, host)
            && (forall h :: h != host ==> (KnownTainted(after, h) <==> KnownTainted(tainted, h)))
            && (KnownTainted(tainted, host) ==> after == tainted)
            && (!KnownTainted(tainted, host) ==> after[|after| - 1] == TaintedHost(host, reason, ts))
  {
    var after := RecordTaint(tainted, host, reason, ts);
    if !KnownTainted(tainted, host) {
      assert after[|tainted|].host == host;
      forall h | h != host
        ensures KnownTainted(after, h) <==> KnownTainted(tainted, h)
      {
        if KnownTainted(tainted, h) {
          var k :| 0 <= k < |tainted| && tainted[k].host == h;
          assert after[k].host == h;
        }
      }
    }
  }

  // ----- Whom the record blames -----

  predicate FirstInState(instances: seq<InstanceRecord>, state: InstanceState, k: int) {
    0 <= k < |instances| && instances[k].state == state && forall j :: 0 <= j < k ==> instances[j].state != state
  }

  lemma {:induction false} FirstInNames(instances: seq<InstanceRecord>, state: InstanceState, k: int)
    requires FirstInState(instances, state, k)
    ensures FirstIn(instances, state) ==
            Some(Cause(Some(instances[k].host), Some(instances[k].id),
                       if state.Error? then InstanceError(instances[k].reason)
                       else InstanceAborted(instances[k].reason),
                       instances[k].updatedMs))
  {
    if k > 0 {
      assert forall j :: 0 <= j < k ==> instances[1..][j] == instances[j + 1];
      FirstInNames(instances[1..], state, k - 1);
    }
  }

  /** A record that concludes without a cause so far blames the first instance in ERROR; failing that the
      first taint; and, if it is merely ABORTED, the first ABORTED instance. */
  lemma OutcomeBlames(e: Experiment, k: int)
    ensures FirstInState(e.instances, InstanceState.Error, k) ==>
              OutcomeCause(e, ExperimentOutcome.Error) ==
              Some(Cause(Some(e.instances[k].host), Some(e.instances[k].id), InstanceError(e.instances[k].reason),
                         e.instances[k].updatedMs))
    ensures !SomeIn(e.instances, InstanceState.Error) && e.tainted != [] ==>
              OutcomeCause(e, ExperimentOutcome.Error) ==
              Some(Cause(Some(e.tainted[0].host), None, HostTainted(e.tainted[0].reason), e.tainted[0].tsMs))
    ensures FirstInState(e.instances, InstanceState.Aborted, k) ==>
              OutcomeCause(e, ExperimentOutcome.Aborted) ==
              Some(Cause(Some(e.instances[k].host), Some(e.instances[k].id), InstanceAborted(e.instances[k].reason),
                         e.instances[k].updatedMs))
  {
    if FirstInState(e.instances, InstanceState.Error, k) {
      FirstInNames(e.instances, InstanceState.Error, k);
    }
    if FirstInState(e.instances, InstanceState.Aborted, k) {
      FirstInNames(e.instances, InstanceState.Aborted, k);
    }
  }

  predicate FirstAlive(instances: seq<InstanceRecord>, k: int) {
    0 <= k < |instances| && !instances[k].IsTerminal() && forall j :: 0 <= j < k ==> instances[j].IsTerminal()
  }

  /** The deadline blames the first instance that is still live. */
  lemma DeadlineBlames(e: Experiment, tsMs: int, k: int)
    requires RecordInv(e) && !e.phase.Concluded? && e.cause.None? && FirstAlive(e.instances, k)
    ensures Handle(e, DeadlineExpires(tsMs)).cause ==
            Some(Cause(Some(e.instances[k].host), Some(e.instances[k].id), UnresolvedAtDeadline, tsMs))
  {
    FirstTargetIs(e.instances, k);
  }

  lemma {:induction false} FirstTargetIs(instances: seq<InstanceRecord>, k: int)
    requires FirstAlive(instances, k)
    ensures LiveTargets(instances) != [] && LiveTargets(instances)[0] == (instances[k].host, instances[k].id)
  {
    if k > 0 {
      assert instances[0].IsTerminal();
      assert forall j :: 0 <= j < k ==> instances[1..][j] == instances[j + 1];
      FirstTargetIs(instances[1..], k - 1);
    }
  }

  /** A halt is accepted by every unconcluded record, blames the operator unless something came before, and
      asks everything live. */
  lemma HaltStopsTheExperiment(e: Experiment, reason: string, ts: int)
    requires RecordInv(e) && !e.phase.Concluded?
    ensures var after := Handle(e, OperatorHalts(reason, ts));
            && after.phase.Halting? && after.cause.Some?
            && (e.cause.None? ==> after.cause == Some(Cause(None, None, OperatorHalt(reason), ts)))
            && forall k :: 0 <= k < |after.instances| ==>
                             after.instances[k].IsTerminal() || after.instances[k].abortRequested
  {
    HandleKeeps(e, OperatorHalts(reason, ts));
    AskingKeepsStates(e.instances);
  }
}
