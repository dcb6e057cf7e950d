/** The single safety deadline of an ACTIVE instance: the earliest stop, and the wait that re-arms it
    whenever connectivity changes. Times are unix milliseconds. */
module Timer {
  import opened Lifecycle
  import opened Machine
  import D = Drivers
  import W = Worlds
  import S = Scripts

  const I64_MIN := -0x8000_0000_0000_0000
  const I64_MAX := 0x7FFF_FFFF_FFFF_FFFF

  function SaturatingAdd(a: int, b: int): int {
    if a + b > I64_MAX then I64_MAX else if a + b < I64_MIN then I64_MIN else a + b
  }

  /** The sum itself where it fits into 64 bits, otherwise the nearest number that does. */
  lemma SaturatingAddIsNearest(a: int, b: int, x: int)
    requires -9223372036854775808 <= x <= 9223372036854775807
    ensures -9223372036854775808 <= SaturatingAdd(a, b) <= 9223372036854775807
    ensures SaturatingAdd(a, b) <= a + b ==> x <= SaturatingAdd(a, b) || SaturatingAdd(a, b) == a + b
    ensures SaturatingAdd(a, b) >= a + b ==> x >= SaturatingAdd(a, b) || SaturatingAdd(a, b) == a + b
  {
  }

  datatype StopClock = StopClock(durationEndMs: int, deadmanMs: int, lossThresholdMs: int)

  /** The earliest pending stop. Ties prefer the gentlest outcome. */
  function NextStop(clock: StopClock, lostSince: Option<int>): (int, StopCause) {
    var graceful := (clock.durationEndMs, DurationElapsed);
    var best :=
      if lostSince.Some? && SaturatingAdd(lostSince.value, clock.lossThresholdMs) < graceful.0
      then (SaturatingAdd(lostSince.value, clock.lossThresholdMs), MasterLost)
      else graceful;
    if clock.deadmanMs < best.0 then (clock.deadmanMs, Deadman) else best
  }

  /** When each cause is due. */
  predicate IsDue(clock: StopClock, lostSince: Option<int>, cause: StopCause, t: int) {
    match cause
    case DurationElapsed => clock.durationEndMs <= t
    case MasterLost => lostSince.Some? && SaturatingAdd(lostSince.value, clock.lossThresholdMs) <= t
    case Deadman => clock.deadmanMs <= t
    case OperatorAbort => false
  }

  function Gentleness(cause: StopCause): nat {
    match cause
    case DurationElapsed => 0
    case MasterLost => 1
    case Deadman => 2
    case OperatorAbort => 3
  }

  /** The timer fires exactly when something is due, names something that is, and among the causes
      first due at that moment the gentlest. */
  lemma NextStopIsEarliest(clock: StopClock, lostSince: Option<int>, t: int)
    ensures var (at, cause) := NextStop(clock, lostSince);
            && (at <= t <==> exists c :: IsDue(clock, lostSince, c, t))
            && IsDue(clock, lostSince, cause, at)
            && forall c :: IsDue(clock, lostSince, c, at) ==> Gentleness(cause) <= Gentleness(c)
  {
    var (at, cause) := NextStop(clock, lostSince);
    assert IsDue(clock, lostSince, cause, at);
    assert at <= t ==> IsDue(clock, lostSince, cause, t);
  }

  // ----- The wait -----

  function Min(a: int, b: int): int {
    if a < b then a else b
  }

  function Max(a: int, b: int): int {
    if a < b then b else a
  }

  datatype Wake = Connected | Lost(sinceMs: int) | SessionGone | Stop(cause: StopCause)

  /** Something the waiting task notices, and when. */
  datatype Happening = Happening(atMs: int, wake: Wake)

  predicate Ordered(entryMs: int, timeline: seq<Happening>) {
    && (forall k :: 0 <= k < |timeline| ==> entryMs <= timeline[k].atMs)
    && (forall j, k :: 0 <= j < k < |timeline| ==> timeline[j].atMs <= timeline[k].atMs)
  }

  /** The connectivity after the first `k` happenings. */
  function LostAfter(initial: Option<int>, timeline: seq<Happening>, k: nat): Option<int>
    requires k <= |timeline|
  {
    if k == 0 then initial
    else match timeline[k - 1].wake
      case Connected => None
      case Lost(since) => Some(since)
      case _ => LostAfter(initial, timeline, k - 1)
  }

  /** No change of connectivity from the j-th happening up to the k-th. */
  predicate Unchanged(timeline: seq<Happening>, j: nat, k: nat)
    requires k <= |timeline|
  {
    forall i :: j <= i < k ==> !timeline[i].wake.Connected? && !timeline[i].wake.Lost?
  }

  /** The j-th happening is the last change of connectivity before the k-th. */
  predicate LastChange(timeline: seq<Happening>, j: int, k: nat)
    requires k <= |timeline|
  {
    0 <= j < k && (timeline[j].wake.Connected? || timeline[j].wake.Lost?) && Unchanged(timeline, j + 1, k)
  }

  /** When `k` happenings are past, the master is lost since `since`: the last change of connectivity was
      that loss, or there was none and it was lost to begin with. */
  ghost predicate LostSince(initial: Option<int>, timeline: seq<Happening>, k: nat, since: int)
    requires k <= |timeline|
  {
    || (Unchanged(timeline, 0, k) && initial == Some(since))
    || exists j :: LastChange(timeline, j, k) && timeline[j].wake == Lost(since)
  }

  /** The master is there: it came back with the last change, or it was there to begin with. */
  ghost predicate IsThere(initial: Option<int>, timeline: seq<Happening>, k: nat)
    requires k <= |timeline|
  {
    || (Unchanged(timeline, 0, k) && initial.None?)
    || exists j :: LastChange(timeline, j, k) && timeline[j].wake.Connected?
  }

  /** The connectivity that the wait keeps is what the timeline says. */
  lemma {:induction false} ConnectivityIs(initial: Option<int>, timeline: seq<Happening>, k: nat)
    requires k <= |timeline|
    ensures LostAfter(initial, timeline, k).None? <==> IsThere(initial, timeline, k)
    ensures forall since :: LostAfter(initial, timeline, k) == Some(since) <==> LostSince(initial, timeline, k, since)
  {
    if k > 0 {
      ConnectivityIs(initial, timeline, k - 1);
      var n := k - 1;
      if timeline[n].wake.Connected? || timeline[n].wake.Lost? {
        assert LastChange(timeline, n, k);
        assert !Unchanged(timeline, 0, k);
        assert forall j :: LastChange(timeline, j, k) ==> j == n;
      } else {
        assert Unchanged(timeline, 0, k) <==> Unchanged(timeline, 0, n);
        assert forall j :: LastChange(timeline, j, k) <==> LastChange(timeline, j, n);
      }
    }
  }

  function InstantAfter(entryMs: int, timeline: seq<Happening>, k: nat): int
    requires k <= |timeline|
  {
    if k == 0 then entryMs else timeline[k - 1].atMs
  }

  /** Nothing was due when the wait had seen `k` happenings, and the next one, a change of connectivity,
      came no later than the stop armed then. */
  predicate Rearmed(clock: StopClock, entryMs: int, initial: Option<int>, timeline: seq<Happening>, k: nat)
    requires k < |timeline|
  {
    var at := NextStop(clock, LostAfter(initial, timeline, k)).0;
    && InstantAfter(entryMs, timeline, k) < at && timeline[k].atMs <= at
    && (timeline[k].wake.Connected? || timeline[k].wake.Lost?)
  }

  /** The wait went past the first `k` happenings. */
  predicate Passed(clock: StopClock, entryMs: int, initial: Option<int>, timeline: seq<Happening>, k: nat)
    requires k <= |timeline|
  {
    forall j :: 0 <= j < k ==> Rearmed(clock, entryMs, initial, timeline, j)
  }

  /** How the wait can end once it went past `k` happenings: its stop is due or comes due before the
      next happening; or the next happening is an operator stop; or the session layer went away, and
      the whole remaining sleep was slept again from that moment on. */
  ghost predicate Ends(clock: StopClock, entryMs: int, initial: Option<int>, timeline: seq<Happening>, k: nat,
                       cause: StopCause, atMs: int)
    requires k <= |timeline|
  {
    var now := InstantAfter(entryMs, timeline, k);
    var (at, armed) := NextStop(clock, LostAfter(initial, timeline, k));
    || (at <= now && atMs == now && cause == armed)
    || (now < at && atMs == at && cause == armed && (k < |timeline| ==> at <= timeline[k].atMs))
    || (now < at && k < |timeline| && timeline[k].atMs <= at
        && (|| (timeline[k].wake == Stop(cause) && atMs == timeline[k].atMs)
            || (timeline[k].wake.SessionGone? && cause == armed && atMs == timeline[k].atMs + (at - now))))
  }

  ghost predicate EndsAfter(clock: StopClock, entryMs: int, initial: Option<int>, timeline: seq<Happening>, k: int,
                            cause: StopCause, atMs: int)
  {
    && 0 <= k <= |timeline| && Passed(clock, entryMs, initial, timeline, k)
    && Ends(clock, entryMs, initial, timeline, k, cause, atMs)
  }

  /** The session layer never goes away. */
  predicate AlwaysThere(timeline: seq<Happening>) {
    forall k :: 0 <= k < |timeline| ==> !timeline[k].wake.SessionGone?
  }

  /** Re-arm the one timer at every change of connectivity. `sleepFirst` decides the races between the
      timer and a happening at the very same instant. While the session layer is there, the wait ends
      no later than the earlier of duration end and dead-man, or at once. */
  method WaitForStop(clock: StopClock, entryMs: int, initial: Option<int>, timeline: seq<Happening>,
                     sleepFirst: nat -> bool)
    returns (cause: StopCause, atMs: int)
    requires Ordered(entryMs, timeline)
    ensures exists k :: EndsAfter(clock, entryMs, initial, timeline, k, cause, atMs)
    ensures AlwaysThere(timeline) ==> entryMs <= atMs <= Bound(clock, entryMs)
  {
    var now, lost, n: nat := entryMs, initial, 0;
    while true
      invariant n <= |timeline| && Passed(clock, entryMs, initial, timeline, n)
      invariant now == InstantAfter(entryMs, timeline, n) && lost == LostAfter(initial, timeline, n)
      decreases |timeline| - n
    {
      var (at, armed) := NextStop(clock, lost);
      if at <= now {
        cause, atMs := armed, now;
        break;
      }
      if n == |timeline| || at < timeline[n].atMs || (at == timeline[n].atMs && sleepFirst(n)) {
        cause, atMs := armed, at;
        break;
      }
      match timeline[n].wake {
        case Stop(stop) =>
          cause, atMs := stop, timeline[n].atMs;
          break;
        case SessionGone =>
          cause, atMs := armed, timeline[n].atMs + (at - now);
          break;
        case Connected => lost := None;
        case Lost(since) => lost := Some(since);
      }
      now, n := timeline[n].atMs, n + 1;
    }
    assert EndsAfter(clock, entryMs, initial, timeline, n, cause, atMs);
    WaitIsBounded(clock, entryMs, initial, timeline, n, cause, atMs);
  }

  // ----- What the wait promises -----

  lemma ArmedBound(clock: StopClock, lostSince: Option<int>)
    ensures NextStop(clock, lostSince).0 <= Min(clock.durationEndMs, clock.deadmanMs)
    ensures lostSince.Some? ==> NextStop(clock, lostSince).0 <= SaturatingAdd(lostSince.value, clock.lossThresholdMs)
  {
  }

  /** The latest moment that the stop was promised for. */
  function Bound(clock: StopClock, entryMs: int): int {
    Max(entryMs, Min(clock.durationEndMs, clock.deadmanMs))
  }

  /** When the stop that was armed after `k` happenings comes due. */
  function ArmedFor(clock: StopClock, initial: Option<int>, timeline: seq<Happening>, k: nat): int
    requires k <= |timeline|
  {
    NextStop(clock, LostAfter(initial, timeline, k)).0
  }

  /** How long the wait had slept on that stop when the next thing happened. */
  function Slept(entryMs: int, timeline: seq<Happening>, k: nat): int
    requires k < |timeline|
  {
    timeline[k].atMs - InstantAfter(entryMs, timeline, k)
  }

  /** The session layer went away, no later than the armed stop, and the sleep was started over. */
  predicate EndsBySession(clock: StopClock, entryMs: int, initial: Option<int>, timeline: seq<Happening>, k: nat,
                          atMs: int)
  {
    && k < |timeline| && timeline[k].wake.SessionGone?
    && InstantAfter(entryMs, timeline, k) < ArmedFor(clock, initial, timeline, k)
    && timeline[k].atMs <= ArmedFor(clock, initial, timeline, k)
    && atMs == ArmedFor(clock, initial, timeline, k) + Slept(entryMs, timeline, k)
  }

  predicate SessionStops(timeline: seq<Happening>, k: nat, cause: StopCause) {
    k < |timeline| && timeline[k].wake == Stop(cause)
  }

  /** How every wait ends, over all timelines. A wait that ended because the session layer went away comes
      late by the time it had already slept. Every other one ends no later than the earlier of duration
      end and dead-man, or at once if that is past; and no later than the loss threshold while the master
      is lost. Whatever it was, unless an operator stopped it, the cause it names is due: MasterLost only
      when the current loss is as old as the threshold. */
  lemma WaitIsTimely(clock: StopClock, entryMs: int, initial: Option<int>, timeline: seq<Happening>, k: nat,
                     cause: StopCause, atMs: int)
    requires Ordered(entryMs, timeline) && EndsAfter(clock, entryMs, initial, timeline, k, cause, atMs)
    ensures var lost := LostAfter(initial, timeline, k);
            && entryMs <= atMs
            && (IsDue(clock, lost, cause, atMs) || SessionStops(timeline, k, cause))
            && (!EndsBySession(clock, entryMs, initial, timeline, k, atMs) ==>
                  && atMs <= Bound(clock, entryMs)
                  && (lost.Some? ==>
                        atMs <= Max(InstantAfter(entryMs, timeline, k),
                                    SaturatingAdd(lost.value, clock.lossThresholdMs))))
  {
    var lost := LostAfter(initial, timeline, k);
    ArmedBound(clock, lost);
    NextStopIsEarliest(clock, lost, atMs);
    if k > 0 {
      ArmedBound(clock, LostAfter(initial, timeline, k - 1));
      assert Rearmed(clock, entryMs, initial, timeline, k - 1);
    }
  }

  /** Why a wait ended, read off the timeline itself, unless an operator stopped it. The full duration is
      over; or the master was lost at that moment, by the last change of connectivity before it, and had been
      for the whole threshold; or the dead-man was due before the duration. A master that is back by then is
      no reason. (The threshold saturates at the largest instant there is.) */
  lemma WhyTheWaitEnds(clock: StopClock, entryMs: int, initial: Option<int>, timeline: seq<Happening>, k: nat,
                       cause: StopCause, atMs: int)
    requires Ordered(entryMs, timeline) && EndsAfter(clock, entryMs, initial, timeline, k, cause, atMs)
    requires !SessionStops(timeline, k, cause)
    ensures match cause
            case DurationElapsed => clock.durationEndMs <= atMs
            case MasterLost =>
              && !IsThere(initial, timeline, k)
              && exists since :: LostSince(initial, timeline, k, since)
                                 && (since + clock.lossThresholdMs <= atMs || atMs >= I64_MAX)
            case Deadman => clock.deadmanMs <= atMs && clock.deadmanMs < clock.durationEndMs
            case OperatorAbort => false
  {
    var lost := LostAfter(initial, timeline, k);
    WaitIsTimely(clock, entryMs, initial, timeline, k, cause, atMs);
    ConnectivityIs(initial, timeline, k);
    if cause == MasterLost {
      assert LostSince(initial, timeline, k, lost.value);
    }
  }

  /** An operator stop is heard: the wait never goes past one, unless the session layer went before it. */
  lemma OperatorIsHeard(clock: StopClock, entryMs: int, initial: Option<int>, timeline: seq<Happening>, k: nat,
                        cause: StopCause, atMs: int, j: nat)
    requires Ordered(entryMs, timeline) && EndsAfter(clock, entryMs, initial, timeline, k, cause, atMs)
    requires j < |timeline| && timeline[j].wake.Stop?
    ensures k <= j && (EndsBySession(clock, entryMs, initial, timeline, k, atMs) || atMs <= timeline[j].atMs)
  {
    assert j < k ==> Rearmed(clock, entryMs, initial, timeline, j);
  }

  /** A reconnect disarms the loss: while the master is there, what is armed is the gentler of duration end
      and dead-man, whichever comes first. */
  lemma ReconnectDisarms(clock: StopClock, initial: Option<int>, timeline: seq<Happening>, k: nat)
    requires k <= |timeline| && IsThere(initial, timeline, k)
    ensures NextStop(clock, LostAfter(initial, timeline, k)) ==
            if clock.deadmanMs < clock.durationEndMs then (clock.deadmanMs, Deadman)
            else (clock.durationEndMs, DurationElapsed)
  {
    ConnectivityIs(initial, timeline, k);
  }

  /** While it is lost, the loss counts too, from the moment it began. */
  lemma LossArms(clock: StopClock, initial: Option<int>, timeline: seq<Happening>, k: nat, since: int)
    requires k <= |timeline| && LostSince(initial, timeline, k, since)
    requires I64_MIN <= since + clock.lossThresholdMs <= I64_MAX
    ensures var lossMs := since + clock.lossThresholdMs;
            NextStop(clock, LostAfter(initial, timeline, k)) ==
            if clock.durationEndMs <= lossMs && clock.durationEndMs <= clock.deadmanMs
            then (clock.durationEndMs, DurationElapsed)
            else if lossMs <= clock.deadmanMs then (lossMs, MasterLost)
            else (clock.deadmanMs, Deadman)
  {
    hide LostAfter, LostSince, IsThere;
    ConnectivityIs(initial, timeline, k);
    assert LostAfter(initial, timeline, k) == Some(since);
  }

  /** The master is back 4 s after it was lost: the fault runs its full time. */
  lemma BackInTime(cause: StopCause, atMs: int)
    ensures EndsAfter(StopClock(100000, 200000, 30000), 0, None,
                      [Happening(1000, Lost(1000)), Happening(5000, Connected)], 2, cause, atMs)
            <==> cause == DurationElapsed && atMs == 100000
  {
    var timeline := [Happening(1000, Lost(1000)), Happening(5000, Connected)];
    assert LostAfter(None, timeline, 1) == Some(1000) && LostAfter(None, timeline, 2) == None;
    assert Passed(StopClock(100000, 200000, 30000), 0, None, timeline, 2);
  }

  /** The promised bound holds exactly when the wait did not end because the session layer went away, or
      did so after sleeping no longer than the bound leaves room for; the armed stop itself is kept only
      when it had not slept at all. */
  lemma SessionGoneDelaysTheStop(clock: StopClock, entryMs: int, initial: Option<int>, timeline: seq<Happening>, k: nat,
                                 cause: StopCause, atMs: int)
    requires Ordered(entryMs, timeline) && EndsAfter(clock, entryMs, initial, timeline, k, cause, atMs)
    ensures var at := ArmedFor(clock, initial, timeline, k);
            && (atMs <= Bound(clock, entryMs) <==>
                  (EndsBySession(clock, entryMs, initial, timeline, k, atMs) ==>
                     Slept(entryMs, timeline, k) <= Bound(clock, entryMs) - at))
            && (EndsBySession(clock, entryMs, initial, timeline, k, atMs) ==>
                  (atMs <= at <==> Slept(entryMs, timeline, k) == 0))
  {
    WaitIsTimely(clock, entryMs, initial, timeline, k, cause, atMs);
    assert k > 0 && k < |timeline| ==> timeline[k - 1].atMs <= timeline[k].atMs;
  }

  lemma WaitIsBounded(clock: StopClock, entryMs: int, initial: Option<int>, timeline: seq<Happening>, k: nat,
                      cause: StopCause, atMs: int)
    requires Ordered(entryMs, timeline) && EndsAfter(clock, entryMs, initial, timeline, k, cause, atMs)
    ensures AlwaysThere(timeline) ==> entryMs <= atMs <= Bound(clock, entryMs)
  {
    WaitIsTimely(clock, entryMs, initial, timeline, k, cause, atMs);
  }

  /** Duration end and dead-man at 1 s and 2 s, the session layer gone after 900 ms: the stop comes at
      1.9 s instead of 1 s. */
  lemma LateStop(cause: StopCause, atMs: int)
    ensures EndsAfter(StopClock(1000, 2000, 30000), 0, None, [Happening(900, SessionGone)], 0, cause, atMs) <==>
            cause == DurationElapsed && atMs == 1900
  {
  }

  /** Gone at the very moment the stop comes due, it is a race: the stop comes at 1 s or at 2 s. */
  lemma LateAtTheTie(cause: StopCause, atMs: int)
    ensures EndsAfter(StopClock(1000, 2000, 30000), 0, None, [Happening(1000, SessionGone)], 0, cause, atMs) <==>
            cause == DurationElapsed && (atMs == 1000 || atMs == 2000)
  {
  }

  /** The clock of an instance that became ACTIVE at `activeSinceMs`. */
  function ClockOf(run: D.RunFaultFrame, startMs: nat, activeSinceMs: int, thresholdMs: int): StopClock {
    StopClock(activeSinceMs + run.durationSecs * 1000, D.DeadlineUnix(startMs, run) * 1000, thresholdMs)
  }

  /** The dead-man beats a duration that has not been stopped before exactly when reaching ACTIVE took
      longer than the grace, less the milliseconds that the deadline drops from the start. */
  lemma DeadmanWinsIff(run: D.RunFaultFrame, startMs: nat, activeSinceMs: int, thresholdMs: int)
    ensures NextStop(ClockOf(run, startMs, activeSinceMs, thresholdMs), None).1 == Deadman <==>
            activeSinceMs - startMs > run.graceSecs * 1000 - startMs % 1000
  {
  }

  /** DONE means that the fault ran its full time: when the wait of the instance decides its stop, and only
      operators use the stop channel, an instance that ends DONE was ACTIVE for the whole duration. */
  lemma DoneRanItsFullTime(run: D.RunFaultFrame, startMs: nat, activeSinceMs: int, thresholdMs: int,
                           entryMs: int, initial: Option<int>, timeline: seq<Happening>, k: nat, atMs: int,
                           passed: bool, world: W.World)
    requires Ordered(entryMs, timeline)
    requires EndsAfter(ClockOf(run, startMs, activeSinceMs, thresholdMs), entryMs, initial, timeline, k,
                       world.stop, atMs)
    requires forall n :: 0 <= n < |timeline| && timeline[n].wake.Stop? ==> timeline[n].wake.cause == OperatorAbort
    requires S.Script(passed, world).last.Done?
    ensures atMs - activeSinceMs >= run.durationSecs * 1000
  {
    S.DoneIff(passed, world);
    WhyTheWaitEnds(ClockOf(run, startMs, activeSinceMs, thresholdMs), entryMs, initial, timeline, k, world.stop, atMs);
  }
}
