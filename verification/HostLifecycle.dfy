// The shutdown of a host: what may be closed and released depends on whether the handlers have drained.

module HostLifecycleModel {
  datatype Phase = Created | Starting | Running | Closing | ShutdownIncomplete | Closed | Failed

  /** The public state that _SetPhase derives from a phase. */
  datatype ShutdownState = RunningState | ClosingState | IncompleteState | ClosedState

  function Public(p: Phase): ShutdownState {
    match p
    case Closing => ClosingState
    case ShutdownIncomplete => IncompleteState
    case Closed => ClosedState
    case Failed => ClosedState
    case _ => RunningState
  }

  function Rank(s: ShutdownState): nat {
    match s
    case RunningState => 0
    case ClosingState => 1
    case IncompleteState => 2
    case ClosedState => 3
  }

  datatype Exit = ExitOk | ExitRejected | ExitStartFailed | ExitShutdownFailed | ExitShutdownLate

  /** Run either exits or parks for ever with everything kept. */
  datatype Outcome = Exits(code: Exit) | Parks

  /** What one WaitHandlersDone reports, and whether the host shows a close reason afterwards. */
  datatype Wait = WaitOk | WaitTimedOut(closed: bool) | WaitError(closed: bool)

  predicate SeesClose(w: Wait) {
    w != WaitOk && w.closed
  }

  /** Where the start-up stops, if it does; an exception counts as a failure of the step it leaves. */
  datatype StartUp = StartsUp | HookFails | CreateFails | StartFails

  /** Everything outside the class: the host it is given, its hooks and how each call ends. */
  datatype World = World(
    hasHost: bool, budgetPositive: bool, startUp: StartUp, first: Wait, second: Wait,
    hasDrainedHook: bool, drainedHookThrows: bool, hasReleaseHook: bool, releaseHookThrows: bool)

  /** What a run does that others can see, in order. */
  datatype Action =
    | Shows(state: ShutdownState)
    | StopsAccepting
    | Waits(result: Wait)
    | CallsDrainedHook
    | ClosesHost
    | CallsReleaseHook

  datatype Failure =
    | NoHost
    | BadBudget
    | StartUpFailed
    | WaitFailed
    | InterruptedByClose
    | DrainedHookThrew
    | ReleaseHookThrew

  /** The host exists from the moment Create has succeeded. */
  predicate HostCreated(w: World) {
    w.startUp == StartsUp || w.startUp == StartFails
  }

  predicate Accepted(w: World) {
    w.hasHost && w.budgetPositive
  }

  predicate NeverDrains(w: World) {
    w.first != WaitOk && !SeesClose(w.first) && w.second != WaitOk && !SeesClose(w.second)
  }

  predicate DrainsLate(w: World) {
    w.first != WaitOk && !SeesClose(w.first) && w.second == WaitOk
  }

  predicate Drains(w: World) {
    w.first == WaitOk || DrainsLate(w)
  }

  predicate SomeHookThrows(w: World) {
    || (w.hasDrainedHook && w.drainedHookThrows && HostCreated(w) && Drains(w))
    || (w.hasReleaseHook && w.releaseHookThrows)
  }

  /** The first wait ran out of its budget and nothing showed that the host was closed. */
  predicate BudgetExceeded(w: World) {
    w.first.WaitTimedOut? && !w.first.closed
  }

  predicate Interrupted(w: World) {
    SeesClose(w.first) || (w.first != WaitOk && w.second != WaitOk && SeesClose(w.second))
  }

  // ---------- What a trace has to satisfy ----------

  /** The drained hook runs only after a wait that succeeded. */
  predicate HookOnlyAfterDrain(trace: seq<Action>) {
    forall i | 0 <= i < |trace| && trace[i] == CallsDrainedHook :: Waits(WaitOk) in trace[..i]
  }

  predicate SawEnd(trace: seq<Action>) {
    exists k | 0 <= k < |trace| :: trace[k].Waits? && (trace[k].result == WaitOk || SeesClose(trace[k].result))
  }

  /** The host is closed only after a successful wait or a close reason somebody else published. */
  predicate CloseOnlyAfterEnd(trace: seq<Action>) {
    forall i | 0 <= i < |trace| && trace[i] == ClosesHost :: SawEnd(trace[..i])
  }

  /** The public state never goes back: not to Running, nor from Closed to anything. */
  predicate StatesAscend(trace: seq<Action>) {
    forall i, j | 0 <= i < j < |trace| && trace[i].Shows? && trace[j].Shows? ::
      Rank(trace[i].state) <= Rank(trace[j].state)
  }

  predicate ReleaseComesLast(trace: seq<Action>) {
    forall i, j | 0 <= i < j < |trace| && trace[i] == CallsReleaseHook :: trace[j].Shows?
  }

  /** No wait for the handlers begins before the host has stopped accepting. */
  predicate StopBeforeWait(trace: seq<Action>) {
    forall i | 0 <= i < |trace| && trace[i].Waits? :: StopsAccepting in trace[..i]
  }

  /** The hooks and the two calls of the host happen at most once each. */
  predicate Once(a: Action) {
    a in {StopsAccepting, CallsDrainedHook, ClosesHost, CallsReleaseHook}
  }

  predicate NothingTwice(trace: seq<Action>) {
    forall i, j | 0 <= i < j < |trace| && Once(trace[i]) :: trace[i] != trace[j]
  }

  /** Once the host is closed only the release hook is still to come. */
  predicate CloseEndsTheHost(trace: seq<Action>) {
    forall i, j | 0 <= i < j < |trace| && trace[i] == ClosesHost :: trace[j].Shows? || trace[j] == CallsReleaseHook
  }

  predicate TraceOk(trace: seq<Action>) {
    && HookOnlyAfterDrain(trace) && CloseOnlyAfterEnd(trace) && StatesAscend(trace) && ReleaseComesLast(trace)
    && StopBeforeWait(trace) && NothingTwice(trace) && CloseEndsTheHost(trace)
  }

  function LastRank(trace: seq<Action>): nat {
    if trace == [] then 0
    else if trace[|trace| - 1].Shows? then Rank(trace[|trace| - 1].state)
    else LastRank(trace[..|trace| - 1])
  }

  lemma {:induction false} LastRankIsHighest(trace: seq<Action>)
    requires StatesAscend(trace)
    ensures forall i | 0 <= i < |trace| && trace[i].Shows? :: Rank(trace[i].state) <= LastRank(trace)
    decreases |trace|
  {
    if trace != [] && !trace[|trace| - 1].Shows? {
      LastRankIsHighest(trace[..|trace| - 1]);
      assert forall i | 0 <= i < |trace| - 1 :: trace[..|trace| - 1][i] == trace[i];
    }
  }

  /** Appending one action keeps the trace in order if the action is allowed where it stands. */
  lemma OneMoreAction(trace: seq<Action>, a: Action)
    requires TraceOk(trace)
    requires a == CallsDrainedHook ==> Waits(WaitOk) in trace
    requires a == ClosesHost ==> SawEnd(trace)
    requires a.Shows? ==> LastRank(trace) <= Rank(a.state)
    requires CallsReleaseHook in trace ==> a.Shows?
    requires a.Waits? ==> StopsAccepting in trace
    requires Once(a) ==> a !in trace
    requires ClosesHost in trace ==> a.Shows? || a == CallsReleaseHook
    ensures TraceOk(trace + [a])
    ensures LastRank(trace + [a]) == if a.Shows? then Rank(a.state) else LastRank(trace)
    ensures (SawEnd(trace) ==> SawEnd(trace + [a]))
    ensures a.Waits? && (a.result == WaitOk || SeesClose(a.result)) ==> SawEnd(trace + [a])
  {
    OneMoreInOrder(trace, a);
    OneMoreAfterAnother(trace, a);
    hide TraceOk, HookOnlyAfterDrain, CloseOnlyAfterEnd, StatesAscend, ReleaseComesLast, StopBeforeWait, NothingTwice,
      CloseEndsTheHost;
    OneMoreEnd(trace, a);
  }

  lemma Prefixes(trace: seq<Action>, a: Action)
    ensures forall i | 0 <= i <= |trace| :: (trace + [a])[..i] == trace[..i]
    ensures trace[..|trace|] == trace
  {
  }

  /** The clauses about what has to come before. */
  lemma OneMoreInOrder(trace: seq<Action>, a: Action)
    requires TraceOk(trace)
    requires a == CallsDrainedHook ==> Waits(WaitOk) in trace
    requires a == ClosesHost ==> SawEnd(trace)
    requires a.Waits? ==> StopsAccepting in trace
    ensures HookOnlyAfterDrain(trace + [a]) && CloseOnlyAfterEnd(trace + [a]) && StopBeforeWait(trace + [a])
  {
    Prefixes(trace, a);
    hide SawEnd, StatesAscend, ReleaseComesLast, NothingTwice, CloseEndsTheHost;
  }

  /** The clauses about two actions of which one comes later. */
  lemma OneMoreAfterAnother(trace: seq<Action>, a: Action)
    requires TraceOk(trace)
    requires a.Shows? ==> LastRank(trace) <= Rank(a.state)
    requires CallsReleaseHook in trace ==> a.Shows?
    requires Once(a) ==> a !in trace
    requires ClosesHost in trace ==> a.Shows? || a == CallsReleaseHook
    ensures StatesAscend(trace + [a]) && ReleaseComesLast(trace + [a])
    ensures NothingTwice(trace + [a]) && CloseEndsTheHost(trace + [a])
  {
    LastRankIsHighest(trace);
    hide HookOnlyAfterDrain, CloseOnlyAfterEnd, StopBeforeWait, LastRank, Rank;
    assert forall i | 0 <= i < |trace| :: trace[i] in trace;
  }

  lemma OneMoreEnd(trace: seq<Action>, a: Action)
    ensures LastRank(trace + [a]) == if a.Shows? then Rank(a.state) else LastRank(trace)
    ensures SawEnd(trace) ==> SawEnd(trace + [a])
    ensures a.Waits? && (a.result == WaitOk || SeesClose(a.result)) ==> SawEnd(trace + [a])
  {
    var t := trace + [a];
    assert t[..|trace|] == trace;
    if SawEnd(trace) {
      var k :| 0 <= k < |trace| && trace[k].Waits? && (trace[k].result == WaitOk || SeesClose(trace[k].result));
      assert t[k] == trace[k];
    }
    assert t[|trace|] == a;
  }
}

module HostLifecycleObject {
  import opened HostLifecycleModel

  class HostLifecycle {
    var started: bool
    var phase: Phase
    var state: ShutdownState
    var failures: seq<Failure>
    var incomplete: seq<string>
    var hostCreated: bool
    var exceededBudget: bool
    ghost var trace: seq<Action>

    ghost predicate Valid()
      reads this
    {
      TraceOk(trace) && LastRank(trace) == Rank(state) && state == Public(phase)
    }

    constructor ()
      ensures Valid() && !started && phase == Created && trace == [] && failures == [] && incomplete == []
      ensures !hostCreated && !exceededBudget
    {
      started, phase, state, failures, incomplete := false, Created, RunningState, [], [];
      hostCreated, exceededBudget, trace := false, false, [];
    }

    method SetPhase(p: Phase)
      requires Valid() && Rank(state) <= Rank(Public(p))
      modifies `phase, `state, `trace
      ensures Valid() && phase == p && trace == old(trace) + [Shows(Public(p))]
      ensures SawEnd(old(trace)) ==> SawEnd(trace)
    {
      OneMoreAction(trace, Shows(Public(p)));
      phase, state, trace := p, Public(p), trace + [Shows(Public(p))];
    }

    /** A call of the host or of a hook. */
    ghost method Note(a: Action)
      requires Valid() && !a.Shows? && CallsReleaseHook !in trace
      requires a == CallsDrainedHook ==> Waits(WaitOk) in trace
      requires a == ClosesHost ==> SawEnd(trace)
      requires a.Waits? ==> StopsAccepting in trace
      requires Once(a) ==> a !in trace
      requires ClosesHost in trace ==> a == CallsReleaseHook
      modifies `trace
      ensures Valid() && trace == old(trace) + [a]
      ensures SawEnd(old(trace)) || (a.Waits? && (a.result == WaitOk || SeesClose(a.result))) ==> SawEnd(trace)
    {
      OneMoreAction(trace, a);
      trace := trace + [a];
    }

    method StartUp(w: World) returns (ok: bool)
      requires Valid() && !hostCreated
      modifies `hostCreated
      ensures Valid() && (ok <==> w.startUp == StartsUp) && hostCreated == HostCreated(w)
    {
      if w.startUp == HookFails {
        return false;
      }
      if w.startUp == CreateFails {
        return false;
      }
      hostCreated := true;
      return w.startUp != StartFails;
    }

    /** _WaitHandlersDone: 0 means drained, 1 interrupted by a close, 2 never drained. */
    method WaitHandlersDone(w: World) returns (outcome: nat)
      requires Valid() && phase == Closing && CallsReleaseHook !in trace && !exceededBudget && incomplete == []
      requires StopsAccepting in trace && ClosesHost !in trace
      modifies `phase, `state, `trace, `failures, `incomplete, `exceededBudget
      ensures Valid() && CallsReleaseHook !in trace && state in {ClosingState, IncompleteState}
      ensures ClosesHost in trace <==> ClosesHost in old(trace)
      ensures CallsDrainedHook in trace <==> CallsDrainedHook in old(trace)
      ensures StopsAccepting in trace
      ensures outcome == if Drains(w) then 0 else if NeverDrains(w) then 2 else 1
      ensures outcome == 0 ==> Waits(WaitOk) in trace
      ensures outcome != 2 ==> SawEnd(trace) && incomplete == []
      ensures outcome == 2 ==> state == IncompleteState && incomplete == ["WaitHandlersDone"]
      ensures exceededBudget == (BudgetExceeded(w) && outcome != 2)
      ensures outcome != 2 ==>
        failures == old(failures) + (if w.first.WaitError? && !w.first.closed then [WaitFailed] else [])
      ensures outcome == 2 ==>
        failures == old(failures) + (if w.first.WaitError? then [WaitFailed] else []) + [WaitFailed]
    {
      hide TraceOk, SawEnd, LastRank;
      Note(Waits(w.first));
      if w.first == WaitOk {
        return 0;
      }
      if w.first.closed {
        return 1;
      }
      var timedOut := w.first.WaitTimedOut?;
      if !timedOut {
        failures := failures + [WaitFailed];
      }
      incomplete := incomplete + ["WaitHandlersDone"];
      SetPhase(ShutdownIncomplete);
      Note(Waits(w.second));
      if w.second == WaitOk || w.second.closed {
        incomplete := [];
        exceededBudget := timedOut;
        return if w.second == WaitOk then 0 else 1;
      }
      failures := failures + [WaitFailed];
      return 2;
    }

    /** The part of _ShutDown that deals with the host; false means that the run parks here. */
    method StopHost(w: World) returns (goesOn: bool, interrupted: bool)
      requires Valid() && phase == Closing && hostCreated && HostCreated(w)
      requires CallsReleaseHook !in trace && ClosesHost !in trace && !exceededBudget && incomplete == []
      requires CallsDrainedHook !in trace && StopsAccepting !in trace
      modifies `phase, `state, `trace, `failures, `incomplete, `exceededBudget
      ensures Valid() && state in {ClosingState, IncompleteState} && CallsReleaseHook !in trace
      ensures goesOn <==> !NeverDrains(w)
      ensures goesOn ==> interrupted == !Drains(w)
      ensures CallsDrainedHook in trace <==> w.hasDrainedHook && Drains(w)
      ensures StopsAccepting in trace
      ensures ClosesHost in trace <==> goesOn
      ensures goesOn ==> incomplete == [] && exceededBudget == BudgetExceeded(w)
      ensures goesOn ==> failures == old(failures) + HostFailures(w)
      ensures !goesOn ==> state == IncompleteState && incomplete == ["WaitHandlersDone"]
      ensures !goesOn ==>
        failures == old(failures) + (if w.first.WaitError? then [WaitFailed] else []) + [WaitFailed]
    {
      hide TraceOk, SawEnd, LastRank;
      Note(StopsAccepting);
      var drain := WaitHandlersDone(w);
      if drain == 2 {
        return false, false;
      }
      interrupted := drain == 1;
      if interrupted {
        failures := failures + [InterruptedByClose];
      } else if w.hasDrainedHook {
        Note(CallsDrainedHook);
        if w.drainedHookThrows {
          failures := failures + [DrainedHookThrew];
        }
      }
      Note(ClosesHost);
      goesOn := true;
    }

    /** _ShutDown. */
    method ShutDown(w: World) returns (o: Outcome)
      requires Valid() && phase in {Starting, Running} && hostCreated == HostCreated(w)
      requires CallsReleaseHook !in trace && ClosesHost !in trace && CallsDrainedHook !in trace
      requires StopsAccepting !in trace
      requires !exceededBudget && incomplete == []
      modifies this
      ensures Valid() && started == old(started)
      ensures CallsDrainedHook in trace <==> HostCreated(w) && w.hasDrainedHook && Drains(w)
      ensures StopsAccepting in trace <==> HostCreated(w)
      ensures o == Parks <==> HostCreated(w) && NeverDrains(w)
      ensures o == Parks ==> ClosesHost !in trace && CallsReleaseHook !in trace && state == IncompleteState
      ensures o == Parks ==> incomplete == ["WaitHandlersDone"]
      ensures o == Parks ==>
        failures == old(failures) + (if w.first.WaitError? then [WaitFailed] else []) + [WaitFailed]
      ensures o.Exits? ==>
        failures == old(failures) + (if HostCreated(w) then HostFailures(w) else [])
          + (if w.hasReleaseHook && w.releaseHookThrows then [ReleaseHookThrew] else [])
      ensures o.Exits? ==>
        (ClosesHost in trace <==> HostCreated(w)) && (CallsReleaseHook in trace <==> w.hasReleaseHook)
      ensures o.Exits? ==> state in {ClosingState, IncompleteState} && incomplete == []
      ensures o.Exits? && old(failures) == [] ==> o.code == ShutdownCode(w)
    {
      hide TraceOk, SawEnd, LastRank;
      SetPhase(Closing);
      var interrupted := false;
      if hostCreated {
        var goesOn;
        goesOn, interrupted := StopHost(w);
        if !goesOn {
          return Parks;
        }
      }
      if w.hasReleaseHook {
        Note(CallsReleaseHook);
        if w.releaseHookThrows {
          failures := failures + [ReleaseHookThrew];
        }
      }
      if failures != [] {
        return Exits(if interrupted && exceededBudget then ExitShutdownLate else ExitShutdownFailed);
      }
      return Exits(if exceededBudget then ExitShutdownLate else ExitOk);
    }

    /** Run, once: what it did is in order, a run that never drains keeps the host open and everything alive,
        and the exit code says exactly what went wrong. */
    method Run(w: World) returns (o: Outcome)
      requires Valid()
      requires !started ==> phase == Created && trace == [] && failures == [] && incomplete == []
      requires !started ==> !hostCreated && !exceededBudget
      modifies this
      ensures Valid() && started
      ensures old(started) ==>
        o == Exits(ExitRejected) && trace == old(trace) && state == old(state) && phase == old(phase)
      ensures !old(started) ==> o == RunOutcome(w)
      ensures !old(started) && o == Parks
        ==> ClosesHost !in trace && CallsReleaseHook !in trace && state == IncompleteState
      ensures !old(started) && o.Exits? ==> state == ClosedState && incomplete == []
      ensures !old(started) && o.Exits? && Accepted(w) ==>
        (ClosesHost in trace <==> HostCreated(w)) && (CallsReleaseHook in trace <==> w.hasReleaseHook)
      ensures !old(started) && Accepted(w) ==>
        (CallsDrainedHook in trace <==> HostCreated(w) && w.hasDrainedHook && Drains(w))
      ensures !old(started) && Accepted(w) ==> (StopsAccepting in trace <==> w.startUp in {StartsUp, StartFails})
      ensures !old(started) && Accepted(w) ==>
        (CallsDrainedHook in trace <==>
           && w.startUp in {StartsUp, StartFails} && w.hasDrainedHook
           && (w.first == WaitOk || (!w.first.closed && w.second == WaitOk)))
      ensures !old(started) && o.Exits? ==>
        phase == if o.code in {ExitOk, ExitShutdownLate} then Closed else Failed
      ensures !old(started) && o.Exits? ==> failures == RunFailures(w)
    {
      hide TraceOk, SawEnd, LastRank, HostFailures, NeverDrains;
      if started {
        return Exits(ExitRejected);
      }
      started := true;
      if !w.hasHost {
        failures := failures + [NoHost];
        SetPhase(Failed);
        return Exits(ExitRejected);
      }
      if !w.budgetPositive {
        failures := failures + [BadBudget];
        SetPhase(Failed);
        return Exits(ExitRejected);
      }
      SetPhase(Starting);
      var up := StartUp(w);
      if !up {
        failures := failures + [StartUpFailed];
        o := ShutDown(w);
        if o == Parks {
          return;
        }
        SetPhase(Failed);
        return Exits(ExitStartFailed);
      }
      SetPhase(Running);
      o := ShutDown(w);
      if o == Parks {
        return;
      }
      SetPhase(if o.code == ExitShutdownFailed then Failed else Closed);
    }
  }

  /** What the host's part of the shutdown adds to the failures. */
  function HostFailures(w: World): seq<Failure> {
    (if w.first.WaitError? && !w.first.closed then [WaitFailed] else [])
    + (if !Drains(w) then [InterruptedByClose]
       else if w.hasDrainedHook && w.drainedHookThrows then [DrainedHookThrew] else [])
  }

  /** The code of a shutdown with no earlier failure.  An interruption after the budget ran out counts as late,
      whatever else failed. */
  function ShutdownCode(w: World): Exit {
    if HostCreated(w) && Interrupted(w) then
      if BudgetExceeded(w) then ExitShutdownLate else ExitShutdownFailed
    else if SomeHookThrows(w) || (HostCreated(w) && DrainsLate(w) && w.first.WaitError?) then
      ExitShutdownFailed
    else if HostCreated(w) && DrainsLate(w) then
      ExitShutdownLate
    else
      ExitOk
  }

  function RunOutcome(w: World): Outcome {
    if !Accepted(w) then Exits(ExitRejected)
    else if HostCreated(w) && NeverDrains(w) then Parks
    else if w.startUp != StartsUp then Exits(ExitStartFailed)
    else Exits(ShutdownCode(w))
  }

  /** The failures a run that exits has recorded, in order. */
  function RunFailures(w: World): seq<Failure> {
    if !w.hasHost then [NoHost]
    else if !w.budgetPositive then [BadBudget]
    else
      (if w.startUp != StartsUp then [StartUpFailed] else [])
      + (if HostCreated(w) then HostFailures(w) else [])
      + (if w.hasReleaseHook && w.releaseHookThrows then [ReleaseHookThrew] else [])
  }

  /** Every outcome, told from the outside world alone: rejection before anything is done; parking when a host that
      was created is neither drained nor closed; a failed start; a clean exit; a shutdown that was late; and one that
      failed. */
  lemma OutcomesAreExact(w: World)
    ensures RunOutcome(w) == Exits(ExitRejected) <==> !w.hasHost || !w.budgetPositive
    ensures var accepted := w.hasHost && w.budgetPositive;
      var stuck := w.startUp in {StartsUp, StartFails} && w.first != WaitOk && !w.first.closed
        && w.second != WaitOk && !w.second.closed;
      var drained := w.first == WaitOk || (!w.first.closed && w.second == WaitOk);
      var hookFails := (w.hasDrainedHook && w.drainedHookThrows && drained)
        || (w.hasReleaseHook && w.releaseHookThrows);
      var runs := accepted && w.startUp == StartsUp && !stuck;
      && (RunOutcome(w) == Parks <==> accepted && stuck)
      && (RunOutcome(w) == Exits(ExitStartFailed) <==> accepted && w.startUp != StartsUp && !stuck)
      && (RunOutcome(w) == Exits(ExitOk) <==> runs && w.first == WaitOk && !hookFails)
      && (RunOutcome(w) == Exits(ExitShutdownLate) <==>
            runs && w.first == WaitTimedOut(false) && (w.second == WaitOk ==> !hookFails))
      && (RunOutcome(w) == Exits(ExitShutdownFailed) <==>
            runs && if w.first == WaitOk then hookFails
                    else w.first.closed || w.first.WaitError? || (w.second == WaitOk && hookFails))
  {
  }

  /** Exit code 0 means that nothing failed; every other exit of a run that was not late has failures to show. */
  lemma ExitOkMeansNoFailure(w: World)
    requires RunOutcome(w).Exits?
    ensures RunOutcome(w).code == ExitOk ==> RunFailures(w) == []
    ensures RunOutcome(w).code in {ExitRejected, ExitStartFailed, ExitShutdownFailed} ==> RunFailures(w) != []
  {
  }

  /** A wait that runs out of its budget, a close that interrupts the second one, and a release hook that throws:
      the exit code is "late", and nothing in it tells that the hook failed. */
  lemma LateHidesAFailedHook()
    ensures var w := World(true, true, StartsUp, WaitTimedOut(false), WaitError(true), false, false, true, true);
      SomeHookThrows(w) && RunOutcome(w) == Exits(ExitShutdownLate)
      && RunOutcome(w.(releaseHookThrows := false)) == Exits(ExitShutdownLate)
  {
  }
}
