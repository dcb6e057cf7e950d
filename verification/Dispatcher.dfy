/** The dispatcher: experiments by id, frames routed to the record that owns them, one record per
    accepted definition. */
module Dispatcher {
  import opened Lifecycle
  import opened Charset
  import opened Hostnames
  import opened Minting
  import opened Validation
  import opened Experiments
  import opened Dispatch
  import R = Record
  import RR = RecordRuns
  import D = Drivers
  import K = KillSwitch

  datatype HaltOutcome = NotFound | AlreadyConcluded | Accepted

  datatype StartResult =
    | Rejected(failures: seq<Failure>)
    | Started(minted: Minted, salvo: seq<(string, D.RunFaultFrame)>)

  /** One line of an InstanceReport. */
  datatype InstanceStatus = InstanceStatus(id: InstanceId, state: InstanceState, reason: string, tsMs: int)
  {
    function Message(): R.Message {
      R.StatusReport(id, state, reason, tsMs)
    }
  }

  /** A call into the store's handlers. */
  datatype Request =
    | Status(s: InstanceStatus)
    | Taints(host: string, tainted: bool, reason: string, tsMs: int)
    | Halts(e: ExperimentId, reason: string, nowMs: int)
    | Expires(e: ExperimentId, nowMs: int)

  /** The message that a request is to the record of experiment `e`, if it concerns it. */
  function MessageFor(e: ExperimentId, request: Request): Option<R.Message> {
    match request
    case Status(s) => if OwningExperimentId(s.id) == Some(e) then Some(s.Message()) else None
    case Taints(host, tainted, reason, ts) => Some(R.TaintReport(host, tainted, reason, ts))
    case Halts(x, reason, now) => if x == e then Some(R.OperatorHalts(reason, now)) else None
    case Expires(x, now) => if x == e then Some(R.DeadlineExpires(now)) else None
  }

  /** The messages to the record of experiment `e`, in their order. */
  function MessagesFor(e: ExperimentId, requests: seq<Request>): seq<R.Message> {
    if requests == [] then []
    else
      var last := MessageFor(e, requests[|requests| - 1]);
      MessagesFor(e, requests[..|requests| - 1]) + if last.Some? then [last.value] else []
  }

  lemma {:induction false} HandleOneMore(e: R.Experiment, ms: seq<R.Message>, m: R.Message)
    ensures R.HandleAll(e, ms + [m]) == R.Handle(R.HandleAll(e, ms), m)
    decreases |ms|
  {
    if ms == [] {
      assert [m][1..] == [];
    } else {
      assert (ms + [m])[1..] == ms[1..] + [m];
      HandleOneMore(R.Handle(e, ms[0]), ms[1..], m);
    }
  }

  /** The store's records, by experiment. */
  type Records = map<ExperimentId, R.Experiment>

  /** One record handles a message. */
  function HandleAt(records: Records, e: ExperimentId, m: R.Message): Records {
    if e in records then records[e := R.Handle(records[e], m)] else records
  }

  function FiredAt(records: Records, e: ExperimentId, m: R.Message): seq<R.Target> {
    if e in records then R.Fired(records[e], m) else []
  }

  /** Only the record that owns the instance handles its status. */
  function HandleStatus(records: Records, s: InstanceStatus): Records {
    var owner := OwningExperimentId(s.id);
    if owner.None? then records else HandleAt(records, owner.value, s.Message())
  }

  function HaltVerdict(records: Records, e: ExperimentId): HaltOutcome {
    if e !in records then NotFound else if records[e].phase.Concluded? then AlreadyConcluded else Accepted
  }

  function HandleEach(records: Records, m: R.Message): Records {
    map e | e in records :: R.Handle(records[e], m)
  }

  /** Every record that a request concerns handles it. */
  function Serve(records: Records, request: Request): Records {
    map e | e in records ::
      var m := MessageFor(e, request);
      if m.Some? then R.Handle(records[e], m.value) else records[e]
  }

  /** Every record handles the messages that concern it, in their order. */
  function ServeAll(records: Records, requests: seq<Request>): Records {
    map e | e in records :: R.HandleAll(records[e], MessagesFor(e, requests))
  }

  /** A report as the store sees it: the lock is released after every status, so before the k-th one the
      requests `others(k)` may be served. */
  function Woven(statuses: seq<InstanceStatus>, others: nat -> seq<Request>): seq<Request> {
    if statuses == [] then []
    else
      var last := |statuses| - 1;
      Woven(statuses[..last], others) + others(last) + [Status(statuses[last])]
  }

  function FiredByStatus(records: Records, s: InstanceStatus): seq<R.Target> {
    var owner := OwningExperimentId(s.id);
    if owner.None? then [] else FiredAt(records, owner.value, s.Message())
  }

  /** What each status of a report sets off in the records as it finds them. */
  function FiredByReport(records: Records, statuses: seq<InstanceStatus>, others: nat -> seq<Request>): seq<R.Target> {
    if statuses == [] then []
    else
      var last := |statuses| - 1;
      FiredByReport(records, statuses[..last], others)
      + FiredByStatus(ServeAll(records, Woven(statuses[..last], others) + others(last)), statuses[last])
  }

  /** The aborts that a status sets off are for exactly the instances that it marks as asked. */
  lemma StatusFires(records: Records, s: InstanceStatus, host: string, id: InstanceId)
    requires AllGood(records)
    ensures (host, id) in FiredByStatus(records, s) <==>
            exists e :: e in records
                        && K.NewlyAsked(records[e].instances, HandleStatus(records, s)[e].instances, host, id)
  {
    forall e | e in records
      ensures HandleStatus(records, s)[e] == records[e] ==>
                !K.NewlyAsked(records[e].instances, HandleStatus(records, s)[e].instances, host, id)
    {
    }
    var owner := OwningExperimentId(s.id);
    if owner.Some? && owner.value in records {
      K.FiredIsWhoWasAsked(records[owner.value], s.Message(), host, id);
      hide R.Handle, R.Fired;
    }
  }

  /** A report sets off what each of its statuses does, when it comes to it. */
  lemma {:induction false} ReportFires(records: Records, statuses: seq<InstanceStatus>, others: nat -> seq<Request>,
                                       t: R.Target)
    ensures t in FiredByReport(records, statuses, others) <==>
            exists n :: 0 <= n < |statuses| && FiredByTheNth(records, statuses, others, n, t)
  {
    hide ServeAll, FiredByStatus, Woven;
    if statuses != [] {
      var last := |statuses| - 1;
      ReportFires(records, statuses[..last], others, t);
      forall n | 0 <= n < last
        ensures FiredByTheNth(records, statuses[..last], others, n, t) <==>
                FiredByTheNth(records, statuses, others, n, t)
      {
        assert statuses[..last][..n] == statuses[..n];
      }
      assert t in FiredByReport(records, statuses, others) <==>
             t in FiredByReport(records, statuses[..last], others) || FiredByTheNth(records, statuses, others, last, t);
    }
  }

  /** Before the n-th status was handled, the earlier ones and the requests served in between had been. */
  predicate FiredByTheNth(records: Records, statuses: seq<InstanceStatus>, others: nat -> seq<Request>, n: nat,
                          t: R.Target)
    requires n < |statuses|
  {
    t in FiredByStatus(ServeAll(records, Woven(statuses[..n], others) + others(n)), statuses[n])
  }

  lemma ServesOneMore(records: Records, requests: seq<Request>, request: Request)
    ensures ServeAll(records, requests + [request]) == Serve(ServeAll(records, requests), request)
  {
    assert (requests + [request])[..|requests|] == requests;
    forall e | e in records
      ensures ServeAll(records, requests + [request])[e] == Serve(ServeAll(records, requests), request)[e]
    {
      var ms, m := MessagesFor(e, requests), MessageFor(e, request);
      if m.Some? {
        HandleOneMore(records[e], ms, m.value);
      } else {
        assert ms + [] == ms;
      }
    }
  }

  lemma ServesNone(records: Records)
    ensures ServeAll(records, []) == records
  {
  }

  /** The single handlers, as requests. */
  lemma RequestsAreHandlers(records: Records)
    ensures forall s :: Serve(records, Status(s)) == HandleStatus(records, s)
    ensures forall host, tainted, reason, ts ::
              Serve(records, Taints(host, tainted, reason, ts))
              == HandleEach(records, R.TaintReport(host, tainted, reason, ts))
    ensures forall e, reason, now ::
              Serve(records, Halts(e, reason, now)) == HandleAt(records, e, R.OperatorHalts(reason, now))
    ensures forall e, now :: Serve(records, Expires(e, now)) == HandleAt(records, e, R.DeadlineExpires(now))
  {
    hide R.Handle;
  }

  /** The status of a minted instance finds its way to the record of its experiment, and to no other. */
  lemma StatusFindsItsRecord(records: Records, nowMs: int, number: nat, host: string, action: nat,
                             state: InstanceState, reason: string, tsMs: int)
    requires HostnameIdSafe(host) && MintId(nowMs, number) in records
    ensures var (e, id) := (MintId(nowMs, number), InstanceIdOf(MintId(nowMs, number), host, action));
            HandleStatus(records, InstanceStatus(id, state, reason, tsMs))
            == records[e := R.Handle(records[e], R.StatusReport(id, state, reason, tsMs))]
  {
    MintedIdRoundTrip(nowMs, number, host, action);
  }

  function SetTaint(fleet: Fleet, host: string, tainted: bool): Fleet {
    if host in fleet.registry then fleet.(registry := fleet.registry[host := tainted]) else fleet
  }

  /** The flag of a registered host is set, nothing else changes; so from then on VALIDATE refuses a tainted
      host, and any other is as good as before. */
  lemma SetTaintIs(fleet: Fleet, host: string, tainted: bool)
    ensures var after := SetTaint(fleet, host, tainted);
            && after.connected == fleet.connected && after.registry.Keys == fleet.registry.Keys
            && (forall h :: h in fleet.registry ==>
                              after.registry[h] == if h == host then tainted else fleet.registry[h])
            && (tainted ==> !GoodHost(after, host))
            && (forall h :: h != host ==> (GoodHost(after, h) <==> GoodHost(fleet, h)))
  {
  }

  /** The experiment is stopped: HALTING, with a cause, and nobody live is left unasked. */
  predicate Stopped(e: R.Experiment) {
    && e.phase.Halting? && e.cause.Some?
    && forall k :: 0 <= k < |e.instances| ==> e.instances[k].IsTerminal() || e.instances[k].abortRequested
  }

  /** Live, and never asked to abort. */
  predicate LiveUnasked(e: R.Experiment, t: R.Target) {
    exists k :: 0 <= k < |e.instances| && (e.instances[k].host, e.instances[k].id) == t
                && !e.instances[k].IsTerminal() && !e.instances[k].abortRequested
  }

  predicate LiveOn(instances: seq<R.InstanceRecord>, host: string, id: InstanceId) {
    exists k :: 0 <= k < |instances| && instances[k].host == host && instances[k].id == id
                && !instances[k].IsTerminal()
  }

  /** The taint of this host concerns the experiment. */
  predicate Concerned(e: R.Experiment, host: string) {
    !e.phase.Concluded? && exists k :: 0 <= k < |e.instances| && e.instances[k].host == host
  }

  ghost predicate AllGood(records: Records) {
    forall e :: e in records ==> RR.RecordInv(records[e])
  }

  /** A taint stops every experiment it concerns, and no other; and the aborts that go out are exactly those
      of their instances that were live and unasked. */
  lemma TaintStopsAll(records: Records, host: string, reason: string, tsMs: int)
    requires AllGood(records)
    ensures var m := R.TaintReport(host, true, reason, tsMs);
            && (forall e :: e in records ==>
                  if Concerned(records[e], host) then Stopped(HandleEach(records, m)[e])
                  else HandleEach(records, m)[e] == records[e])
            && forall t :: FiredBySome(records, records.Keys, m, t) <==>
                             exists e :: e in records && Concerned(records[e], host) && LiveUnasked(records[e], t)
  {
    var m := R.TaintReport(host, true, reason, tsMs);
    forall e | e in records
      ensures if Concerned(records[e], host) then Stopped(R.Handle(records[e], m))
              else R.Handle(records[e], m) == records[e]
      ensures forall t :: t in R.Fired(records[e], m) <==> Concerned(records[e], host) && LiveUnasked(records[e], t)
    {
      OneIsStopped(records[e], host, reason, tsMs);
    }
    hide R.Handle, R.Fired;
  }

  lemma OneIsStopped(e: R.Experiment, host: string, reason: string, tsMs: int)
    requires RR.RecordInv(e)
    ensures var m := R.TaintReport(host, true, reason, tsMs);
            && (if Concerned(e, host) then Stopped(R.Handle(e, m)) else R.Handle(e, m) == e)
            && forall t :: t in R.Fired(e, m) <==> Concerned(e, host) && LiveUnasked(e, t)
  {
    var m := R.TaintReport(host, true, reason, tsMs);
    if Concerned(e, host) {
      K.TaintStopsTheExperiment(e, host, reason, tsMs);
      hide R.Handle, R.Fired;
      forall t
        ensures t in R.Fired(e, m) <==> LiveUnasked(e, t)
      {
        assert t == (t.0, t.1);
      }
    }
  }

  lemma HaltStops(e: R.Experiment, reason: string, nowMs: int)
    requires RR.RecordInv(e)
    ensures !e.phase.Concluded? ==> Stopped(R.Handle(e, R.OperatorHalts(reason, nowMs)))
  {
    if !e.phase.Concluded? {
      K.HaltStopsTheExperiment(e, reason, nowMs);
    }
  }

  predicate FiredBySome(records: Records, among: set<ExperimentId>, m: R.Message, t: R.Target) {
    exists e :: e in among && e in records && t in R.Fired(records[e], m)
  }

  function HandleSome(records: Records, among: set<ExperimentId>, m: R.Message): Records {
    map e | e in records :: if e in among then R.Handle(records[e], m) else records[e]
  }

  lemma OneMoreHandles(records: Records, among: set<ExperimentId>, e: ExperimentId, m: R.Message)
    requires e in records && e !in among
    ensures HandleAt(HandleSome(records, among, m), e, m) == HandleSome(records, among + {e}, m)
    ensures forall t :: FiredBySome(records, among + {e}, m, t) <==>
                          FiredBySome(records, among, m, t) || t in FiredAt(HandleSome(records, among, m), e, m)
    ensures among + {e} == records.Keys ==> HandleSome(records, among + {e}, m) == HandleEach(records, m)
  {
    forall t
      ensures FiredBySome(records, among + {e}, m, t) <==>
              FiredBySome(records, among, m, t) || t in R.Fired(records[e], m)
    {
      if t in R.Fired(records[e], m) {
        assert e in among + {e};
      }
    }
  }

  lemma NoTaintNoChange(records: Records, host: string, reason: string, tsMs: int)
    ensures HandleEach(records, R.TaintReport(host, false, reason, tsMs)) == records
    ensures forall among, t :: !FiredBySome(records, among, R.TaintReport(host, false, reason, tsMs), t)
  {
  }

  class Dispatcher {
    const catalog: Catalog
    const graceSecs: nat
    const marginMs: int
    var fleet: Fleet
    var store: map<ExperimentId, ExperimentRecord>
    /** The next sequence number. */
    var number: nat

    constructor (catalog: Catalog, graceSecs: nat, marginMs: int, fleet: Fleet)
      ensures Valid() && store == map[] && this.catalog == catalog && this.fleet == fleet
      ensures this.graceSecs == graceSecs && this.marginMs == marginMs
    {
      this.catalog, this.graceSecs, this.marginMs, this.fleet := catalog, graceSecs, marginMs, fleet;
      store, number := map[], 1;
    }

    /** Every record is good, stored under its own id, which has an earlier sequence number. */
    ghost predicate Valid()
      reads this`store, this`number, store.Values
    {
      forall e :: e in store ==> store[e].id == e && store[e].Valid() && NumberOf(e) < number
    }

    ghost function Views(): (views: Records)
      reads this`store, store.Values
      ensures views.Keys == store.Keys
    {
      map e | e in store :: store[e].View()
    }

    // ----- Frame intake -----

    method HandleInstanceStatus(s: InstanceStatus) returns (aborts: seq<R.Target>)
      requires Valid()
      modifies store.Values
      ensures Valid() && Views() == HandleStatus(old(Views()), s)
      ensures aborts == FiredByStatus(old(Views()), s)
      ensures forall host, id :: (host, id) in aborts <==>
                exists e :: e in store && K.NewlyAsked(old(Views())[e].instances, Views()[e].instances, host, id)
    {
      hide RR.RecordInv, R.Handle, R.Fired;
      AllAreGood();
      forall host, id
        ensures (host, id) in FiredByStatus(Views(), s) <==>
                exists e :: e in store
                            && K.NewlyAsked(Views()[e].instances, HandleStatus(Views(), s)[e].instances, host, id)
      {
        StatusFires(Views(), s, host, id);
      }
      aborts := [];
      var owner := OwningExperimentId(s.id);
      if owner.None? || owner.value !in store {
        return;
      }
      aborts := store[owner.value].OnStatus(s.id, s.state, s.reason, s.tsMs);
    }

    /** Any one of the handlers. */
    method ServeOne(request: Request)
      requires Valid()
      modifies this`fleet, store.Values
      ensures Valid() && Views() == Serve(old(Views()), request)
    {
      hide R.Handle, R.Fired, RR.RecordInv;
      RequestsAreHandlers(Views());
      match request {
        case Status(s) => var _ := HandleInstanceStatus(s);
        case Taints(host, tainted, reason, ts) => var _ := HandleTaintStatus(host, tainted, reason, ts);
        case Halts(e, reason, now) => var _, _ := Halt(e, reason, now);
        case Expires(e, now) => var _ := ResolveDeadline(e, now);
      }
    }

    /** Other handlers at work. */
    method ServeOthers(requests: seq<Request>, ghost was: Records, ghost before: seq<Request>)
      requires Valid() && Views() == ServeAll(was, before)
      modifies this`fleet, store.Values
      ensures Valid() && Views() == ServeAll(was, before + requests)
    {
      hide R.Handle, RR.RecordInv, ServeAll, Serve;
      assert before + requests[..0] == before;
      for n := 0 to |requests|
        invariant Valid() && Views() == ServeAll(was, before + requests[..n])
      {
        assert before + requests[..n + 1] == (before + requests[..n]) + [requests[n]];
        ServesOneMore(was, before + requests[..n], requests[n]);
        ServeOne(requests[n]);
      }
      assert requests[..|requests|] == requests;
    }

    /** A reconciliation report is its statuses, one after the other; other handlers may run in between. */
    method HandleInstanceReport(statuses: seq<InstanceStatus>, others: nat -> seq<Request>)
      returns (aborts: seq<R.Target>)
      requires Valid()
      modifies this`fleet, store.Values
      ensures Valid() && Views() == ServeAll(old(Views()), Woven(statuses, others))
      ensures aborts == FiredByReport(old(Views()), statuses, others)
    {
      hide R.Handle, R.Fired, RR.RecordInv, ServeAll, Serve, HandleStatus, FiredByStatus;
      aborts := [];
      ghost var was := Views();
      ServesNone(was);
      for n := 0 to |statuses|
        invariant Valid() && Views() == ServeAll(was, Woven(statuses[..n], others))
        invariant aborts == FiredByReport(was, statuses[..n], others)
      {
        assert statuses[..n + 1][..n] == statuses[..n];
        ghost var so := Woven(statuses[..n], others);
        ServeOthers(others(n), was, so);
        RequestsAreHandlers(Views());
        ServesOneMore(was, so + others(n), Status(statuses[n]));
        var more := HandleInstanceStatus(statuses[n]);
        aborts := aborts + more;
      }
      assert statuses[..|statuses|] == statuses;
    }

    /** A new taint reaches every experiment; the registry remembers the flag either way. */
    method HandleTaintStatus(host: string, tainted: bool, reason: string, tsMs: int) returns (aborts: seq<R.Target>)
      requires Valid()
      modifies this`fleet, store.Values
      ensures Valid() && fleet == SetTaint(old(fleet), host, tainted)
      ensures Views() == HandleEach(old(Views()), R.TaintReport(host, tainted, reason, tsMs))
      ensures forall t :: t in aborts <==>
                FiredBySome(old(Views()), store.Keys, R.TaintReport(host, tainted, reason, tsMs), t)
      ensures forall e :: e in store ==>
                if tainted && Concerned(old(Views())[e], host) then Stopped(Views()[e])
                else Views()[e] == old(Views())[e]
      ensures forall t :: t in aborts <==>
                tainted && exists e :: e in store && Concerned(old(Views())[e], host) && LiveUnasked(old(Views())[e], t)
    {
      hide R.Handle, R.Fired, RR.RecordInv, FiredBySome, Concerned, Stopped, LiveUnasked;
      ghost var was := Views();
      AllAreGood();
      TaintStopsAll(was, host, reason, tsMs);
      fleet := SetTaint(fleet, host, tainted);
      if tainted {
        aborts := TaintEach(host, reason, tsMs);
      } else {
        aborts := [];
        NoTaintNoChange(Views(), host, reason, tsMs);
      }
    }

    lemma AllAreGood()
      requires Valid()
      ensures AllGood(Views())
    {
      forall e | e in store
        ensures RR.RecordInv(Views()[e])
      {
        assert store[e].Valid();
      }
    }

    method TaintEach(host: string, reason: string, tsMs: int) returns (aborts: seq<R.Target>)
      requires Valid()
      modifies store.Values
      ensures Valid() && Views() == HandleEach(old(Views()), R.TaintReport(host, true, reason, tsMs))
      ensures forall t :: t in aborts <==>
                FiredBySome(old(Views()), store.Keys, R.TaintReport(host, true, reason, tsMs), t)
    {
      hide R.Handle, R.Fired, RR.RecordInv;
      aborts := [];
      ghost var was, m := Views(), R.TaintReport(host, true, reason, tsMs);
      ghost var done: set<ExperimentId> := {};
      var left := store.Keys;
      while left != {}
        invariant Valid() && done + left == store.Keys && done !! left
        invariant Views() == HandleSome(was, done, m)
        invariant forall t :: t in aborts <==> FiredBySome(was, done, m, t)
      {
        var e :| e in left;
        OneMoreHandles(was, done, e, m);
        var more := TaintOne(e, host, reason, tsMs);
        aborts := aborts + more;
        left, done := left - {e}, done + {e};
      }
    }

    method TaintOne(e: ExperimentId, host: string, reason: string, tsMs: int) returns (aborts: seq<R.Target>)
      requires Valid() && e in store
      modifies store.Values
      ensures Valid() && Views() == HandleAt(old(Views()), e, R.TaintReport(host, true, reason, tsMs))
      ensures aborts == FiredAt(old(Views()), e, R.TaintReport(host, true, reason, tsMs))
    {
      aborts := store[e].OnTaint(host, reason, tsMs);
    }

    // ----- Operator surface and deadline -----

    method Halt(e: ExperimentId, reason: string, nowMs: int) returns (outcome: HaltOutcome, aborts: seq<R.Target>)
      requires Valid()
      modifies store.Values
      ensures Valid() && Views() == HandleAt(old(Views()), e, R.OperatorHalts(reason, nowMs))
      ensures outcome == HaltVerdict(old(Views()), e)
      ensures aborts == FiredAt(old(Views()), e, R.OperatorHalts(reason, nowMs))
      ensures match outcome
              case NotFound => e !in store
              case AlreadyConcluded => e in store && old(store[e].phase).Concluded?
              case Accepted => e in store && !old(store[e].phase).Concluded? && Stopped(Views()[e])
      ensures forall host, id :: (host, id) in aborts <==>
                e in store && K.NewlyAsked(old(Views())[e].instances, Views()[e].instances, host, id)
    {
      hide R.Handle, R.Fired, RR.RecordInv, Stopped;
      if e !in store {
        return NotFound, [];
      }
      ghost var was := Views();
      assert store[e].Valid();
      HaltStops(was[e], reason, nowMs);
      forall host, id
        ensures (host, id) in R.Fired(was[e], R.OperatorHalts(reason, nowMs)) <==>
                K.NewlyAsked(was[e].instances, R.Handle(was[e], R.OperatorHalts(reason, nowMs)).instances, host, id)
      {
        K.FiredIsWhoWasAsked(was[e], R.OperatorHalts(reason, nowMs), host, id);
      }
      var accepted;
      accepted, aborts := store[e].OnHalt(reason, nowMs);
      assert Views() == was[e := store[e].View()];
      outcome := if accepted then Accepted else AlreadyConcluded;
    }

    method ResolveDeadline(e: ExperimentId, nowMs: int) returns (aborts: seq<R.Target>)
      requires Valid()
      modifies store.Values
      ensures Valid() && Views() == HandleAt(old(Views()), e, R.DeadlineExpires(nowMs))
      ensures e in store ==> store[e].phase.Concluded?
      ensures aborts == if e !in store || old(store[e].phase).Concluded? then []
                        else R.LiveTargets(old(store[e].instances))
      ensures forall host, id :: (host, id) in aborts <==>
                e in store && !old(store[e].phase).Concluded? && LiveOn(old(store[e].instances), host, id)
    {
      hide R.Handle, RR.RecordInv, R.LiveTargets;
      if e !in store {
        return [];
      }
      forall host, id
        ensures (host, id) in R.LiveTargets(store[e].instances) <==> LiveOn(store[e].instances, host, id)
      {
        K.LiveTargetsAre(store[e].instances, host, id);
      }
      aborts := store[e].OnDeadline(nowMs);
    }

    // ----- Accepting -----

    /** The list holds exactly the failing checks of the definition. */
    ghost predicate NamesFailures(failures: seq<Failure>, definition: Definition)
      reads this`fleet
    {
      exists facts :: Gathered(facts, definition, fleet)
                      && forall f :: f in failures <==> Fails(definition, catalog, facts, f)
    }

    /** Validate and, if nothing fails, mint, store and dispatch. Otherwise nothing changes and every
        failing check is named. */
    method StartExperiment(definition: Definition, nowMs: int) returns (result: StartResult)
      requires Valid()
      modifies this`store, this`number
      ensures Valid()
      ensures result.Started? <==> definition != [] && AllSound(definition, catalog, fleet)
      ensures result.Rejected? ==>
                store == old(store) && result.failures != [] && NamesFailures(result.failures, definition)
      ensures result.Started? ==>
                && NamesFailures([], definition) && AllSound(definition, catalog, fleet) && definition != []
                && result.minted == MintedFor(MintId(nowMs, old(number)), definition, graceSecs, nowMs, marginMs)
                && result.minted.id in store && fresh(store[result.minted.id]) && result.minted.id !in old(store)
                && store == old(store)[result.minted.id := store[result.minted.id]]
                && store[result.minted.id].View() == result.minted.record
                && IsSalvo(result.salvo, |result.minted.record.instances|, result.minted, catalog)
    {
      hide RR.RecordInv, MintedFor;
      var failures := Check(definition);
      if failures != [] {
        return Rejected(failures);
      }
      var m := Admit(definition, nowMs);
      var salvo := RunFaults(m, catalog);
      result := Started(m, salvo);
    }

    method Check(definition: Definition) returns (failures: seq<Failure>)
      ensures NamesFailures(failures, definition)
      ensures failures == [] <==> definition != [] && AllSound(definition, catalog, fleet)
      ensures failures == [] ==> AllKnown(definition, catalog)
    {
      var facts := GatherHostFacts(definition, fleet);
      failures := Validate(definition, catalog, facts);
      NothingFails(definition, facts, failures);
    }

    /** Mint the record under a new id and store it. */
    method Admit(definition: Definition, nowMs: int) returns (m: Minted)
      requires Valid() && definition != [] && AllSound(definition, catalog, fleet)
      modifies this`store, this`number
      ensures Valid() && m.id !in old(store) && m.id in store && store == old(store)[m.id := store[m.id]]
      ensures fresh(store[m.id]) && store[m.id].View() == m.record
      ensures m == MintedFor(MintId(nowMs, old(number)), definition, graceSecs, nowMs, marginMs)
      ensures ActionsExist(m) && m.definition == definition
    {
      var id := MintId(nowMs, number);
      IsNew(nowMs);
      MintedIdShape(nowMs, number);
      m := MintExperiment(id, definition, graceSecs, nowMs, marginMs);
      MintedIsGood(id, definition, graceSecs, nowMs, marginMs, catalog, fleet);
      assert ActionsExist(m) by {
        assert forall k :: 0 <= k < |m.record.instances| ==>
                             FromDefinition(m.record.instances[k], id, definition, nowMs);
      }
      var record := new ExperimentRecord(id, m.record);
      store := store[id := record];
      number := number + 1;
    }

    /** The failure list is empty exactly when every action is sound. */
    lemma NothingFails(definition: Definition, facts: map<string, HostFacts>, failures: seq<Failure>)
      requires Gathered(facts, definition, fleet)
      requires forall f :: f in failures <==> Fails(definition, catalog, facts, f)
      ensures failures == [] <==> definition != [] && AllSound(definition, catalog, fleet)
      ensures failures == [] ==> AllKnown(definition, catalog)
    {
      AcceptedIff(definition, catalog, facts, fleet);
      hide Fails;
      if failures != [] {
        assert Fails(definition, catalog, facts, failures[0]);
      }
      assert AllSound(definition, catalog, fleet) ==> AllKnown(definition, catalog) by {
        assert forall a :: 0 <= a < |definition| && Sound(definition[a], catalog, fleet) ==>
                             (definition[a].plugin, definition[a].version) in catalog;
      }
    }

    /** The next number was never used before. */
    lemma IsNew(nowMs: int)
      requires Valid()
      ensures MintId(nowMs, number) !in store && NumberOf(MintId(nowMs, number)) == number
    {
      NumberOfMinted(nowMs, number);
    }
  }
}
